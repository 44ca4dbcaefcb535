// A winning submission on its way to the node: record the share, freeze the
// allocation, only then submit (internal/stratum/server.go). With no other
// actor at work the handler is shown to be a run of the transition system,
// which also covers what happens between its steps.

module Submission {
  import opened Arith
  import opened Apportionment
  import opened ShareWindow
  import opened Ledger
  import opened StoreModel
  import opened PoolSystem
  import opened Targets

  /** What the job of a submission says. */
  datatype Work = Work(
    height: nat, address: string, shareTarget: Target, target: Target,
    reward: nat, fees: nat)

  datatype Settings = Settings(windows: nat, bps: nat, maturityBlocks: nat)

  /** What happens to a block on its way to the node. */
  datatype Delivery = Undelivered | ReplyLost | Answered(id: string)

  datatype Reply = Accepted | Duplicate | Unavailable | Unresolved | Unexpected

  /** The node's block endpoint: the ids it was sent, with the payout of their templates. */
  class BlockNode {
    var received: map<string, nat>

    constructor ()
      ensures received == map[]
    {
      received := map[];
    }

    method SubmitBlock(id: string, payout: nat, delivery: Delivery)
      modifies this
      ensures received == if delivery.Undelivered? then old(received) else old(received)[id := payout]
    {
      if !delivery.Undelivered? {
        received := received[id := payout];
      }
    }
  }

  /** The block as it is put to the store: its id is the winning hash, its cutoff the winning share. */
  function BlockOf(work: Work, hash: string, cfg: Settings, cutoff: nat): Found {
    Found(hash, work.height, work.reward, work.fees, work.height + cfg.maturityBlocks, cutoff)
  }

  ghost predicate Fits(db: Db, work: Work, hash: string) {
    Recordable(db.shares, work.height, work.address, TargetWork(work.shareTarget), hash)
  }

  /** The tables after one solved share. */
  ghost function Booked(db: Db, work: Work, hash: string, network: bool, cfg: Settings): Db {
    if !Fits(db, work, hash) then db
    else
      var recorded := Recorded(db, work.address, TargetWork(work.shareTarget), hash);
      if !network then recorded
      else
        var found := BlockOf(work, hash, cfg, recorded.lastShare);
        Allocated(recorded, found, TargetWork(work.target) * cfg.windows, cfg.bps)
  }

  // ----- What is booked

  /** A share that can be told apart: its hash is not in the table yet. */
  ghost predicate NewShare(rows: seq<Share>, work: Work, hash: string) {
    work.height > 0 && work.address != "" && hash != "" && !Known(rows, hash)
  }

  /** A solved block that gets a row of its own. */
  ghost predicate NewBlock(db: Db, work: Work, hash: string, network: bool, cfg: Settings) {
    && NewShare(db.shares, work, hash) && network && hash !in db.blocks
    && work.reward > 0 && cfg.windows > 0 && cfg.bps <= 10_000
  }

  /** The share is credited with the expected hashes of the job's share target. */
  ghost predicate IsCredit(share: Share, last: nat, work: Work, hash: string) {
    && share.id > last && share.address == work.address && share.hash == hash
    && share.work == TWO_TO_256 / (work.shareTarget + 1)
  }

  /** The row divides the reward over so many windows of the block's own expected hashes, newest work first. */
  ghost predicate IsRowOf(b: Block, rows: seq<Share>, work: Work, cfg: Settings)
    requires cfg.bps <= 10_000
  {
    && b.window == TWO_TO_256 / (work.target + 1) * cfg.windows
    && b.height == work.height && b.maturity == work.height + cfg.maturityBlocks
    && b.fees == work.fees && b.status == Pending
    && PaysOut(b, UnitsAt(rows, b.window), work.reward, cfg.bps)
  }

  /** A new share adds one row at the end of the table, and nothing else does. */
  ghost predicate ShareBooked(db: Db, after: seq<Share>, work: Work, hash: string) {
    if NewShare(db.shares, work, hash) then
      |after| == |db.shares| + 1 && after[..|db.shares|] == db.shares
      && IsCredit(after[|db.shares|], db.lastShare, work, hash)
    else after == db.shares
  }

  /** A new block adds one row, which covers the winner's work whole unless the share target is the harder one. */
  ghost predicate BlockBooked(db: Db, after: Db, work: Work, hash: string, network: bool, cfg: Settings) {
    if NewBlock(db, work, hash, network, cfg) then
      && hash in after.blocks && after.blocks == db.blocks[hash := after.blocks[hash]]
      && IsRowOf(after.blocks[hash], after.shares, work, cfg)
      && (work.shareTarget >= work.target ==>
        after.shares != [] && Get(after.blocks[hash].work, work.address) >= after.shares[|after.shares| - 1].work)
    else after.blocks == db.blocks
  }

  ghost predicate IsBooked(db: Db, after: Db, work: Work, hash: string, network: bool, cfg: Settings) {
    ShareBooked(db, after.shares, work, hash) && BlockBooked(db, after, work, hash, network, cfg)
  }

  lemma FitsNew(db: Db, work: Work, hash: string)
    ensures Fits(db, work, hash) <==> NewShare(db.shares, work, hash)
  {
    WorkAntitone(work.shareTarget, work.shareTarget);
  }

  lemma BookedShare(db: Db, work: Work, hash: string, network: bool, cfg: Settings)
    ensures ShareBooked(db, Booked(db, work, hash, network, cfg).shares, work, hash)
  {
    FitsNew(db, work, hash);
  }

  lemma WindowAtWinner(older: seq<Share>, last: nat, winner: Share, window: nat)
    requires Ascending(older) && IdsUpTo(older, last) && winner.id > last && winner.work > 0 && window > 0
    ensures Window(older + [winner], winner.id, window) == multiset(Take(Units(older + [winner]), window)) != multiset{}
    ensures window >= winner.work ==>
      multiset(Take(Units(older + [winner]), window))[winner.address] >= winner.work
  {
    AllUpTo(older + [winner], winner.id);
    WinnerInUnits(older, winner, window);
  }

  lemma WindowOfBlock(target: Target, windows: nat)
    ensures TargetWork(target) * windows == 0 <==> windows == 0
    ensures windows > 0 ==> TargetWork(target) * windows >= TargetWork(target) > 0
  {
    WorkAntitone(target, target);
    if windows > 0 {
      MulGrows(windows, TargetWork(target));
    }
  }

  /** The units that a block of this size won now divides its reward over. */
  ghost function UnitsAt(rows: seq<Share>, window: nat): multiset<string> {
    multiset(Take(Units(rows), window))
  }

  /** What an allocation right after the win does. */
  lemma AllocatedAtWin(db: Db, older: seq<Share>, last: nat, winner: Share, found: Found, window: nat, bps: nat)
    requires Ascending(older) && IdsUpTo(older, last) && winner.id > last && winner.work > 0
    requires db.shares == older + [winner] && found.cutoff == winner.id && found.id != "" && found.height > 0
    ensures window > 0 ==> UnitsAt(db.shares, window) != multiset{}
    ensures Allocated(db, found, window, bps) ==
      if window > 0 && bps <= 10_000 && found.reward > 0 && found.id !in db.blocks
      then db.(blocks := db.blocks[found.id := Frozen(UnitsAt(db.shares, window), found, window, bps)]) else db
  {
    if window > 0 {
      WindowAtWinner(older, last, winner, window);
    }
  }

  /** The row of a block won with the newest share. */
  lemma RowAtWin(
      older: seq<Share>, last: nat, winner: Share, b: Block, found: Found, work: Work, cfg: Settings, window: nat)
    requires Ascending(older) && IdsUpTo(older, last) && winner.id > last && winner.work > 0 && cfg.bps <= 10_000
    requires window > 0 && window == TWO_TO_256 / (work.target + 1) * cfg.windows
    requires found == BlockOf(work, found.id, cfg, winner.id) && work.height > 0
    requires UnitsAt(older + [winner], window) != multiset{}
    requires b == Frozen(UnitsAt(older + [winner], window), found, window, cfg.bps)
    ensures IsRowOf(b, older + [winner], work, cfg)
    ensures window >= winner.work ==> Get(b.work, winner.address) >= winner.work
  {
    var units := UnitsAt(older + [winner], window);
    WindowAtWinner(older, last, winner, window);
    FrozenPaysOut(units, found, window, cfg.bps);
    assert winner.address in units ==> b.work[winner.address] == units[winner.address];
  }

  /** The winner's work is at most the window. */
  lemma WinnerFits(work: Work, windows: nat)
    requires work.shareTarget >= work.target && windows > 0
    ensures TargetWork(work.shareTarget) <= TargetWork(work.target) * windows
  {
    WorkAntitone(work.shareTarget, work.target);
    WindowOfBlock(work.target, windows);
  }

  lemma BookedRow(db: Db, work: Work, hash: string, network: bool, cfg: Settings)
    requires Ascending(db.shares) && IdsUpTo(db.shares, db.lastShare)
    ensures BlockBooked(db, Booked(db, work, hash, network, cfg), work, hash, network, cfg)
  {
    FitsNew(db, work, hash);
    if NewShare(db.shares, work, hash) && network {
      var winner := Share(db.lastShare + 1, work.address, TargetWork(work.shareTarget), hash);
      BookedBlock(db, work, hash, cfg, winner, TargetWork(work.target) * cfg.windows);
    }
  }

  /** Right after its share, a block can be allocated exactly when it is new and worth something. */
  lemma AllocatableAtWin(db: Db, work: Work, hash: string, cfg: Settings)
    requires Ascending(db.shares) && IdsUpTo(db.shares, db.lastShare) && NewShare(db.shares, work, hash)
    ensures var recorded := Recorded(db, work.address, TargetWork(work.shareTarget), hash);
      var found, window := BlockOf(work, hash, cfg, recorded.lastShare), TargetWork(work.target) * cfg.windows;
      Allocatable(recorded, found, window, cfg.bps) <==> NewBlock(db, work, hash, true, cfg)
  {
    var winner := Share(db.lastShare + 1, work.address, TargetWork(work.shareTarget), hash);
    WorkAntitone(work.shareTarget, work.shareTarget);
    WindowOfBlock(work.target, cfg.windows);
    if cfg.windows > 0 {
      WindowAtWinner(db.shares, db.lastShare, winner, TargetWork(work.target) * cfg.windows);
    }
  }

  lemma BookedBlock(db: Db, work: Work, hash: string, cfg: Settings, winner: Share, window: nat)
    requires Ascending(db.shares) && IdsUpTo(db.shares, db.lastShare) && NewShare(db.shares, work, hash)
    requires winner == Share(db.lastShare + 1, work.address, TargetWork(work.shareTarget), hash)
    requires window == TargetWork(work.target) * cfg.windows
    ensures BlockBooked(db, Booked(db, work, hash, true, cfg), work, hash, true, cfg)
  {
    var recorded, found := Recorded(db, work.address, winner.work, hash), BlockOf(work, hash, cfg, winner.id);
    var after := Booked(db, work, hash, true, cfg);
    FitsNew(db, work, hash);
    AllocatableAtWin(db, work, hash, cfg);
    if NewBlock(db, work, hash, true, cfg) {
      WorkAntitone(work.shareTarget, work.shareTarget);
      AllocatedAtWin(recorded, db.shares, db.lastShare, winner, found, window, cfg.bps);
      RowOfBlock(db, work, hash, cfg, winner, window, found);
      RowBooked(db, after, Frozen(UnitsAt(recorded.shares, window), found, window, cfg.bps), work, hash, cfg, winner);
    } else {
      NoneBooked(db, after, work, hash, cfg);
    }
  }

  lemma RowBooked(db: Db, after: Db, b: Block, work: Work, hash: string, cfg: Settings, winner: Share)
    requires after.shares == db.shares + [winner] && after.blocks == db.blocks[hash := b]
    requires cfg.bps <= 10_000 && IsRowOf(b, after.shares, work, cfg)
    requires work.shareTarget >= work.target ==> Get(b.work, work.address) >= winner.work
    requires NewBlock(db, work, hash, true, cfg)
    ensures BlockBooked(db, after, work, hash, true, cfg)
  {
  }

  lemma NoneBooked(db: Db, after: Db, work: Work, hash: string, cfg: Settings)
    requires after.blocks == db.blocks && !NewBlock(db, work, hash, true, cfg)
    ensures BlockBooked(db, after, work, hash, true, cfg)
  {
  }

  lemma WorkOfTarget(target: Target)
    ensures TargetWork(target) == TWO_TO_256 / (target + 1)
  {
  }

  lemma RowOfBlock(db: Db, work: Work, hash: string, cfg: Settings, winner: Share, window: nat, found: Found)
    requires Ascending(db.shares) && IdsUpTo(db.shares, db.lastShare) && NewBlock(db, work, hash, true, cfg)
    requires winner == Share(db.lastShare + 1, work.address, TargetWork(work.shareTarget), hash) && winner.work > 0
    requires window == TargetWork(work.target) * cfg.windows && found == BlockOf(work, hash, cfg, winner.id)
    requires UnitsAt(db.shares + [winner], window) != multiset{}
    ensures var b := Frozen(UnitsAt(db.shares + [winner], window), found, window, cfg.bps);
      && IsRowOf(b, db.shares + [winner], work, cfg)
      && (work.shareTarget >= work.target ==> Get(b.work, work.address) >= winner.work)
  {
    var b := Frozen(UnitsAt(db.shares + [winner], window), found, window, cfg.bps);
    WindowOfBlock(work.target, cfg.windows);
    WorkOfTarget(work.target);
    RowAtWin(db.shares, db.lastShare, winner, b, found, work, cfg, window);
    if work.shareTarget >= work.target {
      WinnerFits(work, cfg.windows);
    }
  }

  lemma WhatIsBooked(db: Db, after: Db, work: Work, hash: string, network: bool, cfg: Settings)
    requires Ascending(db.shares) && IdsUpTo(db.shares, db.lastShare)
    requires after == Booked(db, work, hash, network, cfg)
    ensures IsBooked(db, after, work, hash, network, cfg)
  {
    BookedShare(db, work, hash, network, cfg);
    BookedRow(db, work, hash, network, cfg);
  }

  /** With the share target of the job that newJob built, the winner's own share is always counted whole. */
  lemma WinnerBookedWhole(
      db: Db, work: Work, hash: string, cfg: Settings, r: Rounding, difficulty: real)
    requires Ascending(db.shares) && IdsUpTo(db.shares, db.lastShare) && NewBlock(db, work, hash, true, cfg)
    requires Faithful(r) && r.grid(difficulty) && difficulty > 0.0 && work.target > 0
    requires work.shareTarget == JobTarget(r, difficulty, work.target)
    ensures var t := Booked(db, work, hash, true, cfg);
      && hash in t.blocks && t.shares != [] && t.shares[|t.shares| - 1].hash == hash
      && Get(t.blocks[hash].work, work.address) >= t.shares[|t.shares| - 1].work
  {
    ShareTargetNotHarder(r, difficulty, work.target);
    BookedShare(db, work, hash, true, cfg);
    BookedRow(db, work, hash, true, cfg);
  }

  /** What the miner is told. */
  ghost function Expected(db: Db, work: Work, hash: string, network: bool, delivery: Delivery, cfg: Settings): Reply {
    if work.height == 0 || work.address == "" || hash == "" then Unavailable
    else if Known(db.shares, hash) then Duplicate
    else if !network then Accepted
    else if !NewBlock(db, work, hash, network, cfg) then Unavailable
    else Answer(delivery, hash)
  }

  /** Of a block the miner is told no more than the node's answer: without one it is unresolved. */
  function Answer(delivery: Delivery, hash: string): Reply {
    if !delivery.Answered? then Unresolved else if delivery.id == hash then Accepted else Unexpected
  }

  /**
    A miner is told that a share was accepted exactly when it is new and, if it
    solved a block, the node has answered with the block's own id. A known hash
    is a duplicate whatever else it would be.
   */
  lemma WhatTheMinerIsTold(db: Db, work: Work, hash: string, network: bool, delivery: Delivery, cfg: Settings)
    ensures var reply := Expected(db, work, hash, network, delivery, cfg);
      var solved := NewBlock(db, work, hash, network, cfg);
      && (reply.Accepted? <==>
        NewShare(db.shares, work, hash) && (network ==> solved && delivery == Delivery.Answered(hash)))
      && (reply.Duplicate? <==> work.height > 0 && work.address != "" && hash != "" && Known(db.shares, hash))
      && (reply.Unresolved? <==> solved && (delivery.Undelivered? || delivery.ReplyLost?))
      && (reply.Unexpected? <==> solved && delivery.Answered? && delivery.id != hash)
  {
  }

  class Server {
    const store: Store
    const node: BlockNode
    const cfg: Settings

    constructor (store: Store, node: BlockNode, cfg: Settings)
      ensures this.store == store && this.node == node && this.cfg == cfg
    {
      this.store, this.node, this.cfg := store, node, cfg;
    }

    /** The whole system around this handler, given the other workers and the controller. */
    ghost function World(workers: map<nat, Stage>, phase: Phase, executed: map<string, Call>): Pool
      reads this, store, node
    {
      Pool(store.Tables(), workers, node.received, phase, executed)
    }

    /**
      Books one solved share; a block is allocated and then submitted. Nothing
      reaches the node before its allocation is committed.
     */
    method Book(
        work: Work, hash: string, network: bool, delivery: Delivery,
        ghost worker: nat, ghost workers: map<nat, Stage>, ghost phase: Phase, ghost executed: map<string, Call>)
      returns (reply: Reply, ghost acts: seq<Action>)
      requires store.Valid() && worker !in workers
      modifies store, node
      ensures store.Valid()
      ensures Run(old(World(workers, phase, executed)), acts) == World(workers, phase, executed)
      ensures store.Tables() == Booked(old(store.Tables()), work, hash, network, cfg)
      ensures IsBooked(old(store.Tables()), store.Tables(), work, hash, network, cfg)
      ensures node.received ==
        if NewBlock(old(store.Tables()), work, hash, network, cfg) && !delivery.Undelivered?
        then old(node.received)[hash := work.reward] else old(node.received)
      ensures reply == Expected(old(store.Tables()), work, hash, network, delivery, cfg)
    {
      ghost var start := World(workers, phase, executed);
      FitsNew(start.db, work, hash);
      acts := [];
      var credit := TargetWork(work.shareTarget);
      var shareID := store.RecordShare(work.height, work.address, credit, hash);
      if shareID.Failed? {
        reply := if shareID.error == DUPLICATE then Duplicate else Unavailable;
      } else if !network {
        acts := [RecordShare(work.height, work.address, credit, hash)];
        RunOne(start, acts[0]);
        reply := Accepted;
      } else {
        ghost var found, window := BlockOf(work, hash, cfg, shareID.value), TargetWork(work.target) * cfg.windows;
        ghost var win := Win(worker, work.address, credit, found, window, cfg.bps);
        WinIsRun(start, worker, work.address, credit, found, window, cfg.bps);
        assert Run(start, [win]) == World(workers[worker := Won(found, window, cfg.bps)], phase, executed);
        ghost var rest;
        reply, rest := BookBlock(work, hash, shareID.value, delivery, worker, workers, phase, executed);
        acts := [win] + rest;
        RunConcat(start, [win], rest);
        AllocatableAtWin(start.db, work, hash, cfg);
      }
      WhatIsBooked(start.db, store.Tables(), work, hash, network, cfg);
    }

    /** Allocates a solved block and submits it. */
    method BookBlock(
        work: Work, hash: string, shareID: nat, delivery: Delivery,
        ghost worker: nat, ghost workers: map<nat, Stage>, ghost phase: Phase, ghost executed: map<string, Call>)
      returns (reply: Reply, ghost acts: seq<Action>)
      requires store.Valid() && worker !in workers
      modifies store`blocks, node
      ensures
        var found, window := BlockOf(work, hash, cfg, shareID), TargetWork(work.target) * cfg.windows;
        var frozen := Allocatable(old(store.Tables()), found, window, cfg.bps);
        && store.Tables() == Allocated(old(store.Tables()), found, window, cfg.bps)
        && reply == (if frozen then Answer(delivery, hash) else Unavailable)
        && node.received == (
          if frozen && !delivery.Undelivered? then old(node.received)[hash := work.reward] else old(node.received))
        && Run(old(World(workers[worker := Won(found, window, cfg.bps)], phase, executed)), acts)
          == World(workers, phase, executed)
    {
      var found := BlockOf(work, hash, cfg, shareID);
      var window := TargetWork(work.target) * cfg.windows;
      ghost var won := World(workers[worker := Won(found, window, cfg.bps)], phase, executed);
      acts := [Allocate(worker)];
      RunOne(won, Allocate(worker));
      ThenAllocate(won, workers, worker, found, window, cfg.bps);
      var allocation := store.AllocateBlock(found, window, cfg.bps);
      if allocation.Failed? {
        return Unavailable, acts;
      }
      ghost var committed := World(workers[worker := Committed(found)], phase, executed);
      node.SubmitBlock(hash, work.reward, delivery);
      Delivered(committed, worker, workers, found);
      ghost var last := if delivery.Undelivered? then Abandon(worker) else Submit(worker);
      RunAppend(won, acts, last);
      acts := acts + [last];
      reply := if !delivery.Answered? then Unresolved else if delivery.id != hash then Unexpected else Accepted;
    }
  }

  lemma WinIsRun(s: Pool, worker: nat, address: string, work: nat, found: Found, window: nat, bps: nat)
    requires Recordable(s.db.shares, found.height, address, work, found.id) && worker !in s.workers
    requires found.cutoff == s.db.lastShare + 1
    ensures Run(s, [Win(worker, address, work, found, window, bps)])
      == s.(db := Recorded(s.db, address, work, found.id), workers := s.workers[worker := Won(found, window, bps)])
  {
    RunOne(s, Win(worker, address, work, found, window, bps));
  }

  lemma ThenAllocate(won: Pool, workers: map<nat, Stage>, worker: nat, found: Found, window: nat, bps: nat)
    requires won.workers == workers[worker := Won(found, window, bps)] && worker !in workers
    ensures ExecAllocate(won, worker) == won.(db := Allocated(won.db, found, window, bps),
      workers := if Allocatable(won.db, found, window, bps) then workers[worker := Committed(found)] else workers)
  {
    assert won.workers - {worker} == workers;
    assert won.workers[worker := Committed(found)] == workers[worker := Committed(found)];
  }

  lemma Delivered(s: Pool, worker: nat, workers: map<nat, Stage>, found: Found)
    requires s.workers == workers[worker := Committed(found)] && worker !in workers
    ensures Exec(s, Submit(worker)) == s.(submitted := s.submitted[found.id := found.reward], workers := workers)
    ensures Exec(s, Abandon(worker)) == s.(workers := workers)
  {
    assert workers[worker := Committed(found)] - {worker} == workers;
  }
}
