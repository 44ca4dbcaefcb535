// From the moment of a win to its allocation: what must hold at the win, and
// how long the server's own pruning leaves the window alone
// (internal/stratum/server.go).

module Winning {
  import opened ShareWindow
  import opened Ledger
  import opened PoolSystem
  import opened Guarantees

  /** The server prunes to this many windows of the network's current work. */
  const RETAINED_WINDOWS: nat := 100

  function RecordedWork(changes: seq<Change>): nat
    decreases |changes|
  {
    if changes == [] then 0
    else (if changes[0].Record? then changes[0].share.work else 0) + RecordedWork(changes[1..])
  }

  ghost predicate PrunesTo(changes: seq<Change>, retain: nat) {
    forall i :: 0 <= i < |changes| && changes[i].Prune? ==> changes[i].retain == retain
  }

  /** Pruning to a hundred windows is harmless until ninety-nine windows of work have come in. */
  lemma {:induction false} PolicyRetains(since: nat, window: nat, changes: seq<Change>)
    requires PrunesTo(changes, RETAINED_WINDOWS * window)
    requires since + RecordedWork(changes) <= (RETAINED_WINDOWS - 1) * window
    ensures Retains(since, window, changes)
    decreases |changes|
  {
    if changes != [] {
      var more := if changes[0].Record? then changes[0].share.work else 0;
      PolicyRetains(since + more, window, changes[1..]);
    }
  }

  // ----- No second block with the same id

  /** The winning share is still in the table, so its hash cannot be recorded again. */
  ghost predicate Taken(rows: seq<Share>, cutoff: nat, hash: string) {
    exists i :: 0 <= i < |rows| && rows[i].id == cutoff && rows[i].hash == hash
  }

  lemma {:induction false} NewerWorkOnly(rows: seq<Share>, cutoff: nat)
    ensures WorkAfter(rows, cutoff) <= WorkOf(rows)
    ensures (forall i :: 0 <= i < |rows| ==> rows[i].id > cutoff) ==> WorkAfter(rows, cutoff) == WorkOf(rows)
  {
    if rows != [] {
      NewerWorkOnly(rows[1..], cutoff);
    }
  }

  lemma {:induction false} PruneKeepsTaken(rows: seq<Share>, cutoff: nat, hash: string, retain: nat)
    requires Ascending(rows) && Taken(rows, cutoff, hash) && WorkAfter(rows, cutoff) < retain
    ensures Taken(Pruned(rows, retain), cutoff, hash)
  {
    if rows != [] && WorkOf(rows[1..]) >= retain {
      NewerWorkOnly(rows[1..], cutoff);
      var i :| 0 <= i < |rows| && rows[i].id == cutoff && rows[i].hash == hash;
      assert i > 0;
      assert rows[1..][i - 1] == rows[i];
      PruneKeepsTaken(rows[1..], cutoff, hash, retain);
    }
  }

  lemma RecordKeepsTaken(rows: seq<Share>, share: Share, cutoff: nat, hash: string)
    requires Taken(rows, cutoff, hash)
    ensures Taken(rows + [share], cutoff, hash)
  {
    var i :| 0 <= i < |rows| && rows[i].id == cutoff && rows[i].hash == hash;
    assert (rows + [share])[i] == rows[i];
  }

  lemma TakenNotRecordable(rows: seq<Share>, cutoff: nat, height: nat, address: string, work: nat, hash: string)
    requires Taken(rows, cutoff, hash)
    ensures !Recordable(rows, height, address, work, hash)
  {
  }

  /** While the worker still waits with its win, nobody else holds or has allocated its block. */
  ghost predicate Held(s: Pool, worker: nat, stage: Stage, id: string) {
    && (worker in s.workers && s.workers[worker] == stage ==> id !in s.db.blocks)
    && (forall w :: w in s.workers && w != worker ==> s.workers[w].found.id != id)
  }

  lemma WinKeepsHeld(
      s: Pool, worker: nat, stage: Stage, cutoff: nat,
      other: nat, address: string, work: nat, found: Found, window: nat, bps: nat)
    requires stage.Won? && Held(s, worker, stage, stage.found.id) && Taken(s.db.shares, cutoff, stage.found.id)
    ensures Held(ExecWin(s, other, address, work, found, window, bps), worker, stage, stage.found.id)
  {
    if found.id == stage.found.id {
      TakenNotRecordable(s.db.shares, cutoff, found.height, address, work, found.id);
    }
  }

  lemma AllocateKeepsHeld(s: Pool, worker: nat, stage: Stage, other: nat)
    requires stage.Won? && Held(s, worker, stage, stage.found.id)
    ensures Held(ExecAllocate(s, other), worker, stage, stage.found.id)
  {
  }

  lemma OtherKeepsHeld(s: Pool, worker: nat, stage: Stage, act: Action)
    requires Inv(s) && Held(s, worker, stage, stage.found.id) && !(act.Win? || act.Allocate?)
    ensures Held(Exec(s, act), worker, stage, stage.found.id)
  {
    WorkersShrink(s, act);
    KeysKept(s, act);
  }

  lemma WorkersShrink(s: Pool, act: Action)
    requires !(act.Win? || act.Allocate?)
    ensures forall w :: w in Exec(s, act).workers ==> w in s.workers && Exec(s, act).workers[w] == s.workers[w]
  {
  }

  lemma KeysKept(s: Pool, act: Action)
    requires Inv(s) && !act.Allocate?
    ensures Exec(s, act).db.blocks.Keys == s.db.blocks.Keys
  {
    if act.Observe? {
      assert Exec(s, act) == ExecObserve(s, act.answer);
    } else if act.ObserveError? {
      assert Exec(s, act) == ExecObserveError(s, act.failure);
    } else {
      OtherKeepsBlocks(s, act);
    }
  }

  lemma StepKeepsHeld(s: Pool, worker: nat, stage: Stage, cutoff: nat, act: Action)
    requires Inv(s) && stage.Won? && Held(s, worker, stage, stage.found.id)
    requires Taken(s.db.shares, cutoff, stage.found.id)
    ensures Held(Exec(s, act), worker, stage, stage.found.id)
  {
    match act {
      case Win(other, address, work, found, window, bps) =>
        WinKeepsHeld(s, worker, stage, cutoff, other, address, work, found, window, bps);
      case Allocate(other) => AllocateKeepsHeld(s, worker, stage, other);
      case _ => OtherKeepsHeld(s, worker, stage, act);
    }
  }

  // ----- The rows over a run

  /** One change to the rows leaves the winner in place and the rest of the trace harmless. */
  lemma ChangeKeepsRows(
      rows: seq<Share>, last: nat, cutoff: nat, id: string, window: nat, change: Change, rest: seq<Change>)
    requires Harmless(rows, last, cutoff, window, [change] + rest) && Taken(rows, cutoff, id) && window > 0
    ensures Harmless(Changed(rows, change), LastAfter(last, change), cutoff, window, rest)
    ensures Taken(Changed(rows, change), cutoff, id)
  {
    var changes := [change] + rest;
    assert changes[0] == change && changes[1..] == rest;
    FirstChange(rows, last, cutoff, window, changes);
    match change {
      case Record(share) => RecordKeepsTaken(rows, share, cutoff, id);
      case Prune(retain) => PruneKeepsTaken(rows, cutoff, id, retain);
    }
  }

  /** Whatever else runs, the worker that waits with its win is alone with the block's id. */
  ghost predicate Alone(s: Pool, worker: nat, stage: Stage, cutoff: nat, window: nat, rest: seq<Change>) {
    && Inv(s) && stage.Won? && Held(s, worker, stage, stage.found.id)
    && Taken(s.db.shares, cutoff, stage.found.id)
    && Harmless(s.db.shares, s.db.lastShare, cutoff, window, rest)
  }

  lemma StepKeepsRows(s: Pool, act: Action, cutoff: nat, id: string, window: nat, rest: seq<Change>)
    requires Harmless(s.db.shares, s.db.lastShare, cutoff, window, StepTrace(s, act) + rest)
    requires Taken(s.db.shares, cutoff, id) && window > 0
    ensures Harmless(Exec(s, act).db.shares, Exec(s, act).db.lastShare, cutoff, window, rest)
    ensures Taken(Exec(s, act).db.shares, cutoff, id)
  {
    StepTraceApplies(s, act);
    var step := StepTrace(s, act);
    if step == [] {
      assert step + rest == rest;
    } else {
      assert step == [step[0]];
      ChangeKeepsRows(s.db.shares, s.db.lastShare, cutoff, id, window, step[0], rest);
      OneChange(s, act);
    }
  }

  lemma OneChange(s: Pool, act: Action)
    requires StepTrace(s, act) != []
    ensures Exec(s, act).db.shares == Changed(s.db.shares, StepTrace(s, act)[0])
    ensures Exec(s, act).db.lastShare == LastAfter(s.db.lastShare, StepTrace(s, act)[0])
  {
  }

  lemma StepKeepsAlone(
      s: Pool, worker: nat, stage: Stage, cutoff: nat, window: nat, act: Action, rest: seq<Change>)
    requires Alone(s, worker, stage, cutoff, window, StepTrace(s, act) + rest) && window > 0
    ensures Alone(Exec(s, act), worker, stage, cutoff, window, rest)
  {
    StepKeepsInv(s, act);
    StepKeepsHeld(s, worker, stage, cutoff, act);
    StepKeepsRows(s, act, cutoff, stage.found.id, window, rest);
  }

  lemma {:induction false} RunKeepsAlone(
      s: Pool, worker: nat, stage: Stage, cutoff: nat, window: nat, acts: seq<Action>)
    requires Alone(s, worker, stage, cutoff, window, ShareTrace(s, acts)) && window > 0
    ensures Alone(Run(s, acts), worker, stage, cutoff, window, [])
    decreases |acts|
  {
    if acts != [] {
      StepKeepsAlone(s, worker, stage, cutoff, window, acts[0], ShareTrace(Exec(s, acts[0]), acts[1..]));
      RunKeepsAlone(Exec(s, acts[0]), worker, stage, cutoff, window, acts[1..]);
    }
  }

  // ----- The frozen allocation

  /** At the win: the hash is new, and the id is neither allocated nor held by another worker. */
  ghost predicate CanWin(s: Pool, worker: nat, address: string, work: nat, found: Found, window: nat, bps: nat) {
    && worker !in s.workers && Recordable(s.db.shares, found.height, address, work, found.id)
    && found.id !in s.db.blocks && (forall w :: w in s.workers ==> s.workers[w].found.id != found.id)
    && found.reward > 0 && window > 0 && bps <= 10_000
  }

  lemma WinIsAlone(
      s: Pool, worker: nat, address: string, work: nat, found: Found, window: nat, bps: nat, rest: seq<Change>)
    requires Inv(s) && CanWin(s, worker, address, work, found, window, bps)
    requires Fresh(s.db.lastShare + 1, rest) && Retains(0, window, rest)
    ensures var cutoff := s.db.lastShare + 1;
      Alone(ExecWin(s, worker, address, work, found, window, bps), worker,
        Won(found.(cutoff := cutoff), window, bps), cutoff, window, rest)
  {
    var cutoff, won := s.db.lastShare + 1, ExecWin(s, worker, address, work, found, window, bps);
    WinKeepsInv(s, worker, address, work, found, window, bps);
    WinnerRecorded(s, worker, address, work, found, window, bps);
    var winner := Share(cutoff, address, work, found.id);
    assert won.db.shares[|s.db.shares|] == winner;
    AllUpTo(won.db.shares, cutoff);
    HarmlessFrom(won.db.shares, cutoff, cutoff, window, 0, rest);
  }

  lemma FrozenSinceWin(
      s: Pool, worker: nat, address: string, work: nat, found: Found, window: nat, bps: nat, won: Pool,
      acts: seq<Action>)
    requires Inv(s) && CanWin(s, worker, address, work, found, window, bps)
    requires won == ExecWin(s, worker, address, work, found, window, bps)
    requires PrunesTo(ShareTrace(won, acts), RETAINED_WINDOWS * window)
    requires RecordedWork(ShareTrace(won, acts)) <= (RETAINED_WINDOWS - 1) * window
    requires worker in Run(won, acts).workers && Run(won, acts).workers[worker] == won.workers[worker]
    ensures var units, after := multiset(Take(Units(won.db.shares), window)), ExecAllocate(Run(won, acts), worker);
      && units != multiset{} && found.id in after.db.blocks
      && after.db.blocks[found.id] == Frozen(units, found, window, bps)
  {
    var cutoff, trace := s.db.lastShare + 1, ShareTrace(won, acts);
    PolicyRetains(0, window, trace);
    RunTraceApplies(won, acts);
    WinIsAlone(s, worker, address, work, found, window, bps, trace);
    RunKeepsAlone(won, worker, Won(found.(cutoff := cutoff), window, bps), cutoff, window, acts);
    AllocationFrozenAtWin(s, worker, address, work, found, window, bps, won, acts, Run(won, acts));
  }

  /**
    The frozen allocation linearises at the winning share under the server's own
    pruning. Whatever other workers record and allocate, and however often the
    table is pruned to a hundred windows, the block row is the one that an
    allocation at the moment of the win would have written, as long as no more
    than ninety-nine windows of work have been recorded since.
   */
  lemma AllocationFrozenByPolicy(
      before: seq<Action>, worker: nat, address: string, work: nat, found: Found, window: nat, bps: nat,
      acts: seq<Action>)
    requires CanWin(Run(START, before), worker, address, work, found, window, bps)
    requires var won := ExecWin(Run(START, before), worker, address, work, found, window, bps);
      && PrunesTo(ShareTrace(won, acts), RETAINED_WINDOWS * window)
      && RecordedWork(ShareTrace(won, acts)) <= (RETAINED_WINDOWS - 1) * window
      && worker in Run(won, acts).workers && Run(won, acts).workers[worker] == won.workers[worker]
    ensures var won := ExecWin(Run(START, before), worker, address, work, found, window, bps);
      var units, after := multiset(Take(Units(won.db.shares), window)), ExecAllocate(Run(won, acts), worker);
      && units != multiset{} && found.id in after.db.blocks
      && after.db.blocks[found.id] == Frozen(units, found, window, bps)
  {
    var s := Run(START, before);
    Reachable(before);
    FrozenSinceWin(
      s, worker, address, work, found, window, bps, ExecWin(s, worker, address, work, found, window, bps), acts);
  }
}
