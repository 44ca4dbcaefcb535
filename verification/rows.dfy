// What every share and every block row satisfies in every run: no share is
// counted twice, and every block divides its whole reward by work
// (internal/store/store.go).

module Rows {
  import opened ShareWindow
  import opened Ledger
  import opened PoolSystem
  import opened Guarantees

  // ----- Shares

  /** No share lacks its miner, its work or its hash, and no hash is in the table twice. */
  ghost predicate SharesComplete(rows: seq<Share>) {
    && (forall i :: 0 <= i < |rows| ==> rows[i].address != "" && rows[i].hash != "" && rows[i].work > 0)
    && (forall i, j :: 0 <= i < j < |rows| ==> rows[i].hash != rows[j].hash)
  }

  lemma RecordKeepsShares(rows: seq<Share>, share: Share, height: nat)
    requires SharesComplete(rows) && Recordable(rows, height, share.address, share.work, share.hash)
    ensures SharesComplete(rows + [share])
  {
  }

  lemma PruneKeepsShares(rows: seq<Share>, retain: nat)
    requires SharesComplete(rows)
    ensures SharesComplete(Pruned(rows, retain))
  {
    PrunedIsSuffix(rows, retain);
  }

  lemma StepKeepsShares(s: Pool, act: Action)
    requires SharesComplete(s.db.shares)
    ensures SharesComplete(Exec(s, act).db.shares)
  {
    match act {
      case RecordShare(height, address, work, hash) =>
        if Recordable(s.db.shares, height, address, work, hash) {
          RecordKeepsShares(s.db.shares, Share(s.db.lastShare + 1, address, work, hash), height);
        }
      case Win(worker, address, work, found, window, bps) =>
        if Recordable(s.db.shares, found.height, address, work, found.id) {
          RecordKeepsShares(s.db.shares, Share(s.db.lastShare + 1, address, work, found.id), found.height);
        }
      case PruneShares(retain) => PruneKeepsShares(s.db.shares, retain);
      case _ => OtherKeepsShares(s, act);
    }
  }

  lemma OtherKeepsShares(s: Pool, act: Action)
    requires !(act.RecordShare? || act.Win? || act.PruneShares?)
    ensures Exec(s, act).db.shares == s.db.shares
  {
    StepTraceApplies(s, act);
  }

  lemma {:induction false} RunKeepsShares(s: Pool, acts: seq<Action>)
    requires SharesComplete(s.db.shares)
    ensures SharesComplete(Run(s, acts).db.shares)
    decreases |acts|
  {
    if acts != [] {
      StepKeepsShares(s, acts[0]);
      RunKeepsShares(Exec(s, acts[0]), acts[1..]);
    }
  }

  /** In every run the share table holds each solution once, with the miner and the work it counts for. */
  lemma NoShareTwice(acts: seq<Action>)
    ensures SharesComplete(Run(START, acts).db.shares)
  {
    RunKeepsShares(START, acts);
  }

  // ----- Blocks

  /** Some units of work, at most a window of them, that the row divides its whole reward over. */
  ghost predicate DividedOver(b: Block, units: multiset<string>, bps: nat) {
    units != multiset{} && |units| <= b.window && bps <= 10_000 && PaysOut(b, units, b.reward, bps)
  }

  ghost predicate BlockComplete(id: string, b: Block) {
    id != "" && b.height > 0 && b.reward > 0 && exists units, bps :: DividedOver(b, units, bps)
  }

  ghost predicate BlocksComplete(blocks: map<string, Block>) {
    forall id :: id in blocks ==> BlockComplete(id, blocks[id])
  }

  lemma FrozenComplete(db: Db, found: Found, window: nat, bps: nat)
    requires Allocatable(db, found, window, bps)
    ensures BlockComplete(found.id, Frozen(Window(db.shares, found.cutoff, window), found, window, bps))
  {
    var units := Window(db.shares, found.cutoff, window);
    FrozenPaysOut(units, found, window, bps);
    SelectedWork(db.shares, found.cutoff, window);
    assert DividedOver(Frozen(units, found, window, bps), units, bps);
  }

  lemma EvolvedComplete(id: string, b: Block, c: Block)
    requires BlockComplete(id, b) && Evolves(b, c)
    ensures BlockComplete(id, c)
  {
    var units, bps :| DividedOver(b, units, bps);
    assert DividedOver(c, units, bps);
  }

  lemma AddedComplete(blocks: map<string, Block>, id: string, b: Block)
    requires BlocksComplete(blocks) && BlockComplete(id, b)
    ensures BlocksComplete(blocks[id := b])
  {
  }

  lemma AllocateKeepsComplete(s: Pool, worker: nat)
    requires BlocksComplete(s.db.blocks)
    ensures BlocksComplete(ExecAllocate(s, worker).db.blocks)
  {
    if worker in s.workers && s.workers[worker].Won? {
      var w := s.workers[worker];
      if Allocatable(s.db, w.found, w.window, w.bps) {
        FrozenComplete(s.db, w.found, w.window, w.bps);
        AddedComplete(
          s.db.blocks, w.found.id, Frozen(Window(s.db.shares, w.found.cutoff, w.window), w.found, w.window, w.bps));
      }
    }
  }

  lemma StepKeepsComplete(s: Pool, act: Action)
    requires Inv(s) && BlocksComplete(s.db.blocks)
    ensures BlocksComplete(Exec(s, act).db.blocks)
  {
    match act {
      case Allocate(worker) => AllocateKeepsComplete(s, worker);
      case Observe(answer) => ObserveKeepsComplete(s, answer, "");
      case ObserveError(failure) => ObserveKeepsComplete(s, BlockAnswer(false, false, 0, 0), failure);
      case _ => OtherKeepsBlocks(s, act);
    }
  }

  lemma ObserveKeepsComplete(s: Pool, answer: BlockAnswer, failure: string)
    requires PhaseSound(s.db, s.phase) && BlocksComplete(s.db.blocks)
    ensures BlocksComplete(ExecObserve(s, answer).db.blocks)
    ensures BlocksComplete(ExecObserveError(s, failure).db.blocks)
  {
    ObserveEvolves(s, answer, failure);
    ObserveKeepsKeys(s, answer, failure);
    SameKeysEvolve(s.db.blocks, ExecObserve(s, answer).db.blocks);
    SameKeysEvolve(s.db.blocks, ExecObserveError(s, failure).db.blocks);
  }

  lemma ObserveKeepsKeys(s: Pool, answer: BlockAnswer, failure: string)
    ensures ExecObserve(s, answer).db.blocks.Keys == s.db.blocks.Keys
    ensures ExecObserveError(s, failure).db.blocks.Keys == s.db.blocks.Keys
  {
  }

  lemma SameKeysEvolve(before: map<string, Block>, after: map<string, Block>)
    requires BlocksEvolve(before, after) && BlocksComplete(before) && after.Keys == before.Keys
    ensures BlocksComplete(after)
  {
    forall id | id in after ensures BlockComplete(id, after[id]) {
      EvolvedComplete(id, before[id], after[id]);
    }
  }

  lemma {:induction false} RunKeepsComplete(s: Pool, acts: seq<Action>)
    requires Inv(s) && BlocksComplete(s.db.blocks)
    ensures BlocksComplete(Run(s, acts).db.blocks)
    decreases |acts|
  {
    if acts != [] {
      StepKeepsInv(s, acts[0]);
      StepKeepsComplete(s, acts[0]);
      RunKeepsComplete(Exec(s, acts[0]), acts[1..]);
    }
  }

  /**
    In every run every block row, whatever has become of the block, divides its
    whole reward: the pool's fee rounded up, and to each address with work in
    the window its part to within two atoms.
   */
  lemma EveryBlockPaysOut(acts: seq<Action>)
    ensures BlocksComplete(Run(START, acts).db.blocks)
  {
    StartSound();
    RunKeepsComplete(START, acts);
  }
}
