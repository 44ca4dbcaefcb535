// The controller's two passes as methods over the store and the node
// (internal/pool/controller.go). With no other actor at work, each is shown to
// be a run of the transition system. What workers do between the steps of a
// pass is covered by the transition system, not by these methods.

module ControllerModel {
  import opened Wrappers
  import opened Ranking
  import opened Ledger
  import opened StoreModel
  import opened PoolSystem
  import Progress

  // ----- The node

  /** The node's payout service: it executes a request id once and repeats itself on identical contents. */
  class Node {
    var executed: map<string, Call>

    constructor ()
      ensures executed == map[]
    {
      executed := map[];
    }

    /** One call; `outcome` says what happens on the way to and from the node. */
    method Payout(call: Call, outcome: Outcome) returns (r: Result<(string, bool)>)
      modifies this
      ensures executed == if !outcome.Refused? && Accepts(old(executed), call)
        then old(executed)[call.request.requestID := call] else old(executed)
      ensures r.Ok? <==> outcome.Replied? && Accepts(old(executed), call)
      ensures r.Ok? ==> r.value == (outcome.transaction, outcome.confirmed)
      ensures r.Failed? ==> r.error == if outcome.Replied? then CONFLICT else outcome.message
    {
      var id := call.request.requestID;
      if outcome.Replied? {
        if id in executed && executed[id] != call {
          return Failed(CONFLICT);
        }
        executed := executed[id := call];
        return Ok((outcome.transaction, outcome.confirmed));
      }
      if outcome.Lost? && (id in executed ==> executed[id] == call) {
        executed := executed[id := call];
      }
      r := Failed(outcome.message);
    }
  }

  // ----- Observing blocks

  type Answers = string -> Result<BlockAnswer>

  /** The table after one answer; `written` is whether the store accepted the write. */
  function AfterAnswer(
      blocks: map<string, Block>, id: string, answer: Result<BlockAnswer>, written: bool): map<string, Block>
    requires id in blocks
  {
    if !written then blocks else
    match answer
    case Failed(error) => BlockFailed(blocks, id, error)
    case Ok(a) => blocks[id := Observed(blocks[id], a.known, a.canonical, a.confirmations, a.tip, "")]
  }

  /** The blocks table after the listed blocks have been observed in turn. */
  function SyncPass(
      blocks: map<string, Block>, page: seq<string>, answers: Answers, writes: string -> bool): map<string, Block>
    requires forall i :: 0 <= i < |page| ==> page[i] in blocks
  {
    if page == [] then blocks
    else SyncPass(AfterAnswer(blocks, page[0], answers(page[0]), writes(page[0])), page[1..], answers, writes)
  }

  lemma {:induction false} SyncPassAppend(
      blocks: map<string, Block>, page: seq<string>, id: string, answers: Answers, writes: string -> bool)
    requires id in blocks && forall i :: 0 <= i < |page| ==> page[i] in blocks
    ensures id in SyncPass(blocks, page, answers, writes)
    ensures SyncPass(blocks, page + [id], answers, writes)
      == AfterAnswer(SyncPass(blocks, page, answers, writes), id, answers(id), writes(id))
    decreases |page|
  {
    if page == [] {
      assert page + [id] == [id];
      assert SyncPass(AfterAnswer(blocks, id, answers(id), writes(id)), [], answers, writes)
        == AfterAnswer(blocks, id, answers(id), writes(id));
    } else {
      SyncPassAppend(AfterAnswer(blocks, page[0], answers(page[0]), writes(page[0])), page[1..], id, answers, writes);
      assert (page + [id])[1..] == page[1..] + [id];
    }
  }

  ghost function ObserveAction(answer: Result<BlockAnswer>, written: bool): Action {
    if !written then Skip else
    match answer
    case Failed(error) => ObserveError(error)
    case Ok(a) => Observe(a)
  }

  ghost function ObserveActions(page: seq<string>, answers: Answers, writes: string -> bool): seq<Action> {
    if page == [] then []
    else [ObserveAction(answers(page[0]), writes(page[0]))] + ObserveActions(page[1..], answers, writes)
  }

  /** The observation pass is a run of the transition system. */
  lemma {:induction false} SyncPassIsRun(s: Pool, page: seq<string>, answers: Answers, writes: string -> bool)
    requires s.phase == SyncingOn(page) && AllPending(s.db.blocks, page)
    ensures Run(s, ObserveActions(page, answers, writes))
      == s.(db := s.db.(blocks := SyncPass(s.db.blocks, page, answers, writes)), phase := Idle)
    decreases |page|
  {
    if page != [] {
      ObserveStep(s, page, answers(page[0]), writes(page[0]));
      SyncPassIsRun(Exec(s, ObserveAction(answers(page[0]), writes(page[0]))), page[1..], answers, writes);
      assert ObserveActions(page, answers, writes)[1..] == ObserveActions(page[1..], answers, writes);
    }
  }

  lemma ObserveStep(s: Pool, page: seq<string>, answer: Result<BlockAnswer>, written: bool)
    requires s.phase == SyncingOn(page) && AllPending(s.db.blocks, page) && page != []
    ensures page[0] in s.db.blocks
    ensures var after := AfterAnswer(s.db.blocks, page[0], answer, written);
      && Exec(s, ObserveAction(answer, written)) == s.(db := s.db.(blocks := after), phase := SyncingOn(page[1..]))
      && AllPending(after, page[1..])
  {
    assert IsPending(s.db.blocks, page[0]);
  }

  lemma WholePassIsRun(s: Pool, page: seq<string>, answers: Answers, writes: string -> bool)
    requires s.phase.Idle? && IsPendingPage(s.db.blocks, page, 1000)
    ensures Run(s, [BeginSync(page)] + ObserveActions(page, answers, writes))
      == s.(db := s.db.(blocks := SyncPass(s.db.blocks, page, answers, writes)))
  {
    RunConcat(s, [BeginSync(page)], ObserveActions(page, answers, writes));
    RunOne(s, BeginSync(page));
    SyncPassIsRun(s.(phase := SyncingOn(page)), page, answers, writes);
  }

  /** A fully answered pass with tips past maturity and the orphan depth. */
  ghost predicate Conclusive(b: Block, answer: Result<BlockAnswer>) {
    answer.Ok? && Progress.Settles(b, answer.value)
  }

  /** Every listed block is answered conclusively and every answer is stored. */
  ghost predicate AllConclusive(blocks: map<string, Block>, page: seq<string>, answers: Answers, writes: string -> bool)
    requires forall i :: 0 <= i < |page| ==> page[i] in blocks
  {
    forall i :: 0 <= i < |page| ==> Conclusive(blocks[page[i]], answers(page[i])) && writes(page[i])
  }

  lemma {:induction false} ConclusivePassResolves(
      blocks: map<string, Block>, page: seq<string>, answers: Answers, writes: string -> bool)
    requires AllPending(blocks, page)
    requires AllConclusive(blocks, page, answers, writes)
    ensures PendingIDs(SyncPass(blocks, page, answers, writes)) == PendingIDs(blocks) - (set id | id in page)
    decreases |page|
  {
    if page != [] {
      var id := page[0];
      assert IsPending(blocks, id) && Conclusive(blocks[id], answers(id)) && writes(id);
      var next := AfterAnswer(blocks, id, answers(id), writes(id));
      assert PendingIDs(next) == PendingIDs(blocks) - {id};
      ConclusivePassResolves(next, page[1..], answers, writes);
      assert (set x | x in page) == {id} + (set x | x in page[1..]);
    }
  }

  /** Such a pass, with nothing allocated meanwhile, resolves min(1000, pending) blocks. */
  lemma ConclusivePassProgress(blocks: map<string, Block>, page: seq<string>, answers: Answers, writes: string -> bool)
    requires IsPendingPage(blocks, page, 1000)
    requires AllConclusive(blocks, page, answers, writes)
    ensures var pending := |PendingIDs(blocks)|;
      |PendingIDs(SyncPass(blocks, page, answers, writes))| == if pending > 1000 then pending - 1000 else 0
  {
    var listed := set id | id in page;
    ConclusivePassResolves(blocks, page, answers, writes);
    PageIsPending(blocks, page);
    SizeOfDifference(PendingIDs(blocks), listed);
  }

  /** The steps of a conclusive pass are those of which Progress shows that no candidate starves. */
  lemma {:induction false} ConclusivePassSteps(
      s: Pool, page: seq<string>, answers: Answers, writes: string -> bool, height: nat)
    requires s.phase == SyncingOn(page) && AllPending(s.db.blocks, page)
    requires AllConclusive(s.db.blocks, page, answers, writes)
    ensures Progress.PassSteps(s, ObserveActions(page, answers, writes), height)
    decreases |page|
  {
    if page != [] {
      var act := ObserveAction(answers(page[0]), writes(page[0]));
      assert IsPending(s.db.blocks, page[0]) && Conclusive(s.db.blocks[page[0]], answers(page[0])) && writes(page[0]);
      ConclusivePassSteps(Exec(s, act), page[1..], answers, writes, height);
      assert ObserveActions(page, answers, writes)[1..] == ObserveActions(page[1..], answers, writes);
    }
  }

  lemma ConclusivePassIsPass(s: Pool, page: seq<string>, answers: Answers, writes: string -> bool, height: nat)
    requires s.phase.Idle? && IsPendingPage(s.db.blocks, page, 1000)
    requires AllConclusive(s.db.blocks, page, answers, writes)
    ensures Progress.IsPass(s, page, ObserveActions(page, answers, writes), height)
  {
    var begun := s.(phase := SyncingOn(page));
    PageAllPending(s.db.blocks, page);
    ConclusivePassSteps(begun, page, answers, writes, height);
    PassEndsIdle(begun, page, answers, writes);
  }

  lemma PageAllPending(blocks: map<string, Block>, page: seq<string>)
    requires IsPendingPage(blocks, page, 1000)
    ensures AllPending(blocks, page)
  {
  }

  lemma PassEndsIdle(s: Pool, page: seq<string>, answers: Answers, writes: string -> bool)
    requires s.phase == SyncingOn(page) && AllPending(s.db.blocks, page)
    ensures Run(s, ObserveActions(page, answers, writes)).phase.Idle?
  {
    SyncPassIsRun(s, page, answers, writes);
  }

  lemma PageIsPending(blocks: map<string, Block>, page: seq<string>)
    requires AllPending(blocks, page)
    ensures (set id | id in page) <= PendingIDs(blocks) && |set id | id in page| == |page|
  {
    DistinctCount(page);
    assert Elements(page) == set id | id in page;
    forall id | id in page ensures id in PendingIDs(blocks) {
      var i :| 0 <= i < |page| && page[i] == id;
      assert IsPending(blocks, page[i]);
    }
  }

  // ----- The controller

  /** A call that brings no reply to store leaves at most an error message in the row. */
  ghost predicate OnlyErrorsDiffer(before: map<nat, Payout>, after: map<nat, Payout>) {
    before.Keys == after.Keys && forall p :: p in before ==> after[p] == before[p].(lastError := after[p].lastError)
  }

  class Controller {
    const store: Store
    const node: Node

    constructor (store: Store, node: Node)
      ensures this.store == store && this.node == node
    {
      this.store := store;
      this.node := node;
    }

    /** The whole system around this controller, given what the Stratum side holds. */
    ghost function World(workers: map<nat, Stage>, submitted: map<string, nat>, phase: Phase): Pool
      reads this, store, node
    {
      Pool(store.Tables(), workers, submitted, phase, node.executed)
    }

    /** One pass over the pending blocks, a run of the system. `statusOk` is whether the node answered at all. */
    method SyncBlocks(
        statusOk: bool, answers: Answers, writes: string -> bool,
        ghost workers: map<nat, Stage>, ghost submitted: map<string, nat>)
      returns (page: seq<string>, ghost acts: seq<Action>)
      modifies store`blocks
      ensures !statusOk ==> page == [] && store.blocks == old(store.blocks)
      ensures statusOk ==> IsPendingPage(old(store.blocks), page, 1000)
      ensures AllPending(old(store.blocks), page) && store.blocks == SyncPass(old(store.blocks), page, answers, writes)
      ensures Run(old(World(workers, submitted, Idle)), acts) == World(workers, submitted, Idle)
    {
      page, acts := [], [];
      if !statusOk {
        return;
      }
      var blocks := store.PendingBlocks(1000);
      page := blocks.value;
      acts := [BeginSync(page)] + ObserveActions(page, answers, writes);
      WholePassIsRun(World(workers, submitted, Idle), page, answers, writes);
      ObserveAll(page, answers, writes);
    }

    /** Asks the node about each block in turn. */
    method ObserveAll(page: seq<string>, answers: Answers, writes: string -> bool)
      requires forall i :: 0 <= i < |page| ==> page[i] in store.blocks
      modifies store`blocks
      ensures store.blocks == SyncPass(old(store.blocks), page, answers, writes)
    {
      for i := 0 to |page|
        invariant store.blocks == SyncPass(old(store.blocks), page[..i], answers, writes)
      {
        SyncPassAppend(old(store.blocks), page[..i], page[i], answers, writes);
        assert page[..i + 1] == page[..i] + [page[i]];
        var answer := answers(page[i]);
        if !writes(page[i]) {
          continue;
        }
        if answer.Failed? {
          store.SetBlockError(page[i], answer.error);
        } else {
          var state := store.SetBlockState(
            page[i], answer.value.known, answer.value.canonical, answer.value.confirmations, answer.value.tip, "");
        }
      }
      assert page[..|page|] == page;
    }

    /** Sends one batch and stores the reply; `stored` is whether that write succeeds. */
    method PayOne(
        batch: Batch, wallet: Wallet, outcome: Outcome, stored: bool,
        ghost workers: map<nat, Stage>, ghost submitted: map<string, nat>, ghost rest: seq<Batch>)
      modifies store`payouts, node
      ensures Run(old(World(workers, submitted, Paying([batch] + rest))),
        [Send(wallet, outcome, stored), Settle(stored)])
        == World(workers, submitted, PayingOn(rest))
      ensures
        var accepted := outcome.Replied? && Accepts(old(node.executed), Call(batch.request, wallet));
        if accepted && stored && outcome.transaction != "" && IsActive(old(store.payouts), batch.id) then
          store.payouts == old(store.payouts)[batch.id := old(store.payouts)[batch.id].(
            status := if outcome.confirmed then Confirmed else Submitted,
            transaction := outcome.transaction, lastError := "")]
        else OnlyErrorsDiffer(old(store.payouts), store.payouts)
    {
      ghost var start := World(workers, submitted, Paying([batch] + rest));
      assert ([batch] + rest)[1..] == rest;
      RunTwo(start, Send(wallet, outcome, stored), Settle(stored));
      var response := node.Payout(Call(batch.request, wallet), outcome);
      if response.Failed? {
        if stored {
          store.PayoutError(batch.id, response.error);
        }
      } else {
        if stored {
          var status := if response.value.1 then Confirmed else Submitted;
          var settled := store.SetPayoutState(batch.id, response.value.0, status);
        }
      }
    }

    /** The batches of this pass: the active ones, or a newly prepared one. */
    method Batches(
        threshold: nat, fee: nat, maxOutputs: nat, requestID: string,
        ghost workers: map<nat, Stage>, ghost submitted: map<string, nat>)
      returns (prepared: seq<Batch>)
      modifies store`payouts, store`lastPayout
      ensures |prepared| <= 10
      ensures Run(old(World(workers, submitted, Idle)), PassStart(threshold, fee, maxOutputs, requestID))
        == World(workers, submitted, PayingOn(prepared))
    {
      ghost var start := World(workers, submitted, Idle);
      var active := store.ActivePayouts(PASS_LIMIT);
      prepared := active.value;
      if |prepared| == 0 {
        var payout := store.PreparePayouts(threshold, fee, maxOutputs, requestID);
        prepared := if payout.Ok? then payout.value else [];
        StartWithNone(start, threshold, fee, maxOutputs, requestID, store.Tables(), prepared);
      } else {
        StartWithActive(start, threshold, fee, maxOutputs, requestID);
      }
    }

    /** Sends the batches one after the other. */
    method PayAll(
        prepared: seq<Batch>, wallet: Wallet, outcomes: nat -> Outcome, stores: nat -> bool,
        ghost workers: map<nat, Stage>, ghost submitted: map<string, nat>)
      modifies store`payouts, node
      ensures Run(old(World(workers, submitted, PayingOn(prepared))), Sends(wallet, outcomes, stores, |prepared|))
        == World(workers, submitted, Idle)
    {
      ghost var start := World(workers, submitted, PayingOn(prepared));
      var i := 0;
      assert prepared[i..] == prepared;
      while i < |prepared|
        invariant 0 <= i <= |prepared|
        invariant Run(start, Sends(wallet, outcomes, stores, i)) == World(workers, submitted, PayingOn(prepared[i..]))
      {
        assert prepared[i..] == [prepared[i]] + prepared[i + 1..];
        ghost var here := World(workers, submitted, PayingOn(prepared[i..]));
        PayOne(prepared[i], wallet, outcomes(i), stores(i), workers, submitted, prepared[i + 1..]);
        ghost var there := World(workers, submitted, PayingOn(prepared[i + 1..]));
        SendsReach(start, here, there, wallet, outcomes, stores, i);
        i := i + 1;
      }
      assert prepared[i..] == [];
    }

    /**
      One payout pass: resume the active batches, or prepare a new one when there
      are none. With no other actor at work the pass is the run `PayoutPass`.
     */
    method ProcessPayouts(
        ready: bool, wallet: Wallet, threshold: nat, fee: nat, maxOutputs: nat, requestID: string,
        outcomes: nat -> Outcome, stores: nat -> bool,
        ghost workers: map<nat, Stage>, ghost submitted: map<string, nat>)
      modifies store`payouts, store`lastPayout, node
      ensures ready && threshold > 0 ==>
        Run(old(World(workers, submitted, Idle)),
          PayoutPass(wallet, threshold, fee, maxOutputs, requestID, outcomes, stores))
          == World(workers, submitted, Idle)
      ensures !ready || threshold == 0 ==> World(workers, submitted, Idle) == old(World(workers, submitted, Idle))
    {
      if !ready || threshold == 0 {
        return;
      }
      ghost var start := World(workers, submitted, Idle);
      var prepared := Batches(threshold, fee, maxOutputs, requestID, workers, submitted);
      ghost var begun := World(workers, submitted, PayingOn(prepared));
      PayAll(prepared, wallet, outcomes, stores, workers, submitted);
      SendsPadded(begun, wallet, outcomes, stores, |prepared|);
      PassRuns(start, wallet, threshold, fee, maxOutputs, requestID, outcomes, stores);
    }
  }

  lemma StartWithNone(
      s: Pool, threshold: nat, fee: nat, maxOutputs: nat, requestID: string, tables: Db, prepared: seq<Batch>)
    requires s.phase.Idle? && FirstActive(s.db, PASS_LIMIT) == []
    requires tables == WithPayout(s.db, threshold, fee, maxOutputs, requestID)
    requires if Preparable(s.db, threshold, maxOutputs, requestID) then
        tables.lastPayout in tables.payouts
        && prepared == [Batch(tables.lastPayout, RequestOf(tables.payouts[tables.lastPayout]))]
      else prepared == []
    ensures Run(s, PassStart(threshold, fee, maxOutputs, requestID)) == s.(db := tables, phase := PayingOn(prepared))
  {
    PreparedBatch(s, threshold, fee, maxOutputs, requestID);
    if Preparable(s.db, threshold, maxOutputs, requestID) {
      ReservedWorld(s, NewPayout(s.db, threshold, fee, maxOutputs, requestID), tables, prepared);
    }
    RunTwo(s, BeginPayouts, PreparePayout(threshold, fee, maxOutputs, requestID, false));
  }

  lemma ReservedWorld(s: Pool, p: Payout, tables: Db, prepared: seq<Batch>)
    requires tables == AddPayout(s.db, p)
    requires prepared == [Batch(tables.lastPayout, RequestOf(tables.payouts[tables.lastPayout]))]
    ensures Reserve(s, p, false) == s.(db := tables, phase := PayingOn(prepared))
  {
  }
}
