// No candidate waits for ever: what repeated passes over the pending blocks do
// while workers keep finding newer ones (internal/store/store.go, controller.go).

module Progress {
  import opened Ranking
  import opened Ledger
  import opened PoolSystem
  import opened Guarantees

  /** The pending blocks up to a height. */
  ghost function PendingUpTo(blocks: map<string, Block>, height: nat): set<string> {
    set id | id in blocks && blocks[id].status == Pending && blocks[id].height <= height
  }

  /** The other candidates that a page in height order may list first. */
  ghost function Ahead(blocks: map<string, Block>, id: string): set<string>
    requires id in blocks
  {
    PendingUpTo(blocks, blocks[id].height) - {id}
  }

  /** An answer past maturity and past the orphan depth settles a pending block either way. */
  predicate Settles(b: Block, answer: BlockAnswer) {
    answer.tip >= b.maturity && answer.tip >= b.height + 6
  }

  /** Blocks found meanwhile are higher. */
  ghost predicate AllocatesAbove(s: Pool, act: Action, height: nat) {
    act.Allocate? && act.worker in s.workers && s.workers[act.worker].Won? ==>
      s.workers[act.worker].found.height > height
  }

  /** A step of a pass in which every block is answered conclusively, with workers interleaved. */
  ghost predicate PassStep(s: Pool, act: Action, height: nat) {
    || (WorkerAction(act) && AllocatesAbove(s, act, height))
    || (act.Observe? && s.phase.Syncing? && s.phase.blocks != [] && s.phase.blocks[0] in s.db.blocks
        && Settles(s.db.blocks[s.phase.blocks[0]], act.answer))
  }

  ghost predicate PassSteps(s: Pool, acts: seq<Action>, height: nat)
    decreases |acts|
  {
    acts == [] || (PassStep(s, acts[0], height) && PassSteps(Exec(s, acts[0]), acts[1..], height))
  }

  /** Any steps at all, as long as blocks found meanwhile are higher. */
  ghost predicate AnySteps(s: Pool, acts: seq<Action>, height: nat)
    decreases |acts|
  {
    acts == [] || (AllocatesAbove(s, acts[0], height) && AnySteps(Exec(s, acts[0]), acts[1..], height))
  }

  // ----- Nothing falls back behind

  lemma AllocateKeepsLower(s: Pool, worker: nat, height: nat)
    requires AllocatesAbove(s, Allocate(worker), height)
    ensures PendingUpTo(ExecAllocate(s, worker).db.blocks, height) == PendingUpTo(s.db.blocks, height)
  {
  }

  lemma EvolvedKeepsLower(before: map<string, Block>, after: map<string, Block>, height: nat)
    requires BlocksEvolve(before, after) && after.Keys == before.Keys
    ensures PendingUpTo(after, height) <= PendingUpTo(before, height)
  {
    forall id | id in PendingUpTo(after, height) ensures id in PendingUpTo(before, height) {
      assert Evolves(before[id], after[id]);
    }
  }

  lemma ObserveKeepsKeys(s: Pool, answer: BlockAnswer, failure: string)
    ensures ExecObserve(s, answer).db.blocks.Keys == s.db.blocks.Keys
    ensures ExecObserveError(s, failure).db.blocks.Keys == s.db.blocks.Keys
  {
  }

  /** No step makes a lower block pending again. */
  lemma StepKeepsLower(s: Pool, act: Action, height: nat)
    requires Inv(s) && AllocatesAbove(s, act, height)
    ensures PendingUpTo(Exec(s, act).db.blocks, height) <= PendingUpTo(s.db.blocks, height)
  {
    match act {
      case Allocate(worker) => AllocateKeepsLower(s, worker, height);
      case Observe(answer) =>
        ObserveEvolves(s, answer, "");
        ObserveKeepsKeys(s, answer, "");
        EvolvedKeepsLower(s.db.blocks, ExecObserve(s, answer).db.blocks, height);
      case ObserveError(failure) =>
        ObserveEvolves(s, BlockAnswer(false, false, 0, 0), failure);
        ObserveKeepsKeys(s, BlockAnswer(false, false, 0, 0), failure);
        EvolvedKeepsLower(s.db.blocks, ExecObserveError(s, failure).db.blocks, height);
      case _ => OtherKeepsBlocks(s, act);
    }
  }

  lemma {:induction false} StepsKeepLower(s: Pool, acts: seq<Action>, height: nat)
    requires Inv(s) && AnySteps(s, acts, height)
    ensures Inv(Run(s, acts)) && PendingUpTo(Run(s, acts).db.blocks, height) <= PendingUpTo(s.db.blocks, height)
    decreases |acts|
  {
    if acts != [] {
      StepKeepsInv(s, acts[0]);
      StepKeepsLower(s, acts[0], height);
      StepsKeepLower(Exec(s, acts[0]), acts[1..], height);
    }
  }

  // ----- One conclusive pass

  /** A conclusive answer takes the block at the head of the queue out of the pending ones. */
  lemma ObserveResolves(s: Pool, answer: BlockAnswer, height: nat)
    requires PhaseSound(s.db, s.phase) && s.phase.Syncing? && s.phase.blocks != []
    requires s.phase.blocks[0] in s.db.blocks && Settles(s.db.blocks[s.phase.blocks[0]], answer)
    ensures var t, head := ExecObserve(s, answer), s.phase.blocks[0];
      && PendingUpTo(t.db.blocks, height) == PendingUpTo(s.db.blocks, height) - {head}
      && t.phase == SyncingOn(s.phase.blocks[1..])
  {
  }

  lemma WorkerKeepsPhase(s: Pool, act: Action)
    requires WorkerAction(act)
    ensures Exec(s, act).phase == s.phase
  {
  }

  /** What is left of the lower pending blocks when the queue has been answered. */
  lemma {:induction false} PassResolves(s: Pool, queue: seq<string>, acts: seq<Action>, height: nat)
    requires Inv(s) && s.phase == SyncingOn(queue) && PassSteps(s, acts, height) && Run(s, acts).phase.Idle?
    ensures Inv(Run(s, acts))
    ensures PendingUpTo(Run(s, acts).db.blocks, height) <= PendingUpTo(s.db.blocks, height) - Elements(queue)
    decreases |acts|
  {
    if acts == [] {
      assert Elements(queue) == {};
    } else {
      PassStepEffect(s, queue, acts[0], height);
      var rest := if acts[0].Observe? then queue[1..] else queue;
      PassResolves(Exec(s, acts[0]), rest, acts[1..], height);
      QueueHead(queue);
    }
  }

  lemma QueueHead(queue: seq<string>)
    ensures queue != [] ==> Elements(queue) == {queue[0]} + Elements(queue[1..])
  {
    if queue != [] {
      assert queue == [queue[0]] + queue[1..];
    }
  }

  lemma PassStepEffect(s: Pool, queue: seq<string>, act: Action, height: nat)
    requires Inv(s) && s.phase == SyncingOn(queue) && PassStep(s, act, height)
    ensures Inv(Exec(s, act))
    ensures act.Observe? ==> queue != []
    ensures var rest := if act.Observe? then queue[1..] else queue;
      Exec(s, act).phase == SyncingOn(rest)
    ensures PendingUpTo(Exec(s, act).db.blocks, height)
      <= PendingUpTo(s.db.blocks, height) - if act.Observe? then {queue[0]} else {}
  {
    StepKeepsInv(s, act);
    if act.Observe? {
      ObserveResolves(s, act.answer, height);
    } else {
      WorkerKeepsPhase(s, act);
      StepKeepsLower(s, act, height);
    }
  }

  /** The page holds the block itself, or a thousand candidates ahead of it. */
  lemma PageCovers(blocks: map<string, Block>, page: seq<string>, id: string)
    requires IsPendingPage(blocks, page, 1000) && IsPending(blocks, id)
    ensures id in page || (|Elements(page)| == 1000 && Elements(page) <= PendingUpTo(blocks, blocks[id].height))
  {
    DistinctCount(page);
    if id !in page {
      FullPage(blocks, page, id);
      forall other | other in Elements(page) ensures other in PendingUpTo(blocks, blocks[id].height) {
        var i :| 0 <= i < |page| && page[i] == other;
        assert IsPending(blocks, page[i]);
      }
    }
  }

  lemma FullPage(blocks: map<string, Block>, page: seq<string>, id: string)
    requires IsPendingPage(blocks, page, 1000) && IsPending(blocks, id) && id !in page
    ensures |page| == 1000
  {
    DistinctCount(page);
    forall other | other in Elements(page) ensures other in PendingIDs(blocks) {
      var i :| 0 <= i < |page| && page[i] == other;
      assert IsPending(blocks, page[i]);
    }
    CardinalityMonotone(Elements(page), PendingIDs(blocks) - {id});
    SizeOfDifference(PendingIDs(blocks), {id});
  }

  ghost function Begun(s: Pool, page: seq<string>): Pool {
    s.(phase := SyncingOn(page))
  }

  /** A pass over one page: it starts and ends with the controller idle. */
  ghost predicate IsPass(s: Pool, page: seq<string>, acts: seq<Action>, height: nat) {
    && s.phase.Idle? && IsPendingPage(s.db.blocks, page, 1000)
    && PassSteps(Begun(s, page), acts, height) && AfterPass(s, page, acts).phase.Idle?
  }

  ghost function AfterPass(s: Pool, page: seq<string>, acts: seq<Action>): Pool {
    Run(Begun(s, page), acts)
  }

  lemma PassIsRun(s: Pool, page: seq<string>, acts: seq<Action>, height: nat)
    requires IsPass(s, page, acts, height)
    ensures AfterPass(s, page, acts) == Run(s, [BeginSync(page)] + acts)
  {
    RunConcat(s, [BeginSync(page)], acts);
    RunOne(s, BeginSync(page));
  }

  /** A conclusive pass resolves a candidate or a thousand of those ahead of it. */
  lemma PassAdvances(s: Pool, id: string, height: nat, page: seq<string>, acts: seq<Action>)
    requires Inv(s) && id in s.db.blocks && s.db.blocks[id].height == height && IsPass(s, page, acts, height)
    ensures var t := AfterPass(s, page, acts);
      && Inv(t)
      && PendingUpTo(t.db.blocks, height) <= PendingUpTo(s.db.blocks, height)
      && (id in PendingUpTo(t.db.blocks, height) ==>
        |PendingUpTo(t.db.blocks, height)| + 1000 <= |PendingUpTo(s.db.blocks, height)|)
  {
    var t := AfterPass(s, page, acts);
    BeginKeepsInv(s, page);
    PassResolves(Begun(s, page), page, acts, height);
    var before, after := PendingUpTo(s.db.blocks, height), PendingUpTo(t.db.blocks, height);
    if id in after {
      assert id in before && id !in Elements(page);
      PageCovers(s.db.blocks, page, id);
      SizeOfDifference(before, Elements(page));
      CardinalityMonotone(after, before - Elements(page));
    }
  }

  lemma BeginKeepsInv(s: Pool, page: seq<string>)
    requires Inv(s) && s.phase.Idle? && IsPendingPage(s.db.blocks, page, 1000)
    ensures Inv(Begun(s, page))
  {
    StepKeepsInv(s, BeginSync(page));
  }

  // ----- Many passes

  /** Any steps, then one conclusive pass. */
  datatype Round = Round(before: seq<Action>, page: seq<string>, pass: seq<Action>)

  ghost predicate IsRound(s: Pool, round: Round, height: nat) {
    AnySteps(s, round.before, height) && IsPass(Run(s, round.before), round.page, round.pass, height)
  }

  ghost function AfterRound(s: Pool, round: Round): Pool {
    AfterPass(Run(s, round.before), round.page, round.pass)
  }

  ghost predicate AreRounds(s: Pool, rounds: seq<Round>, height: nat)
    decreases |rounds|
  {
    rounds == [] || (IsRound(s, rounds[0], height) && AreRounds(AfterRound(s, rounds[0]), rounds[1..], height))
  }

  ghost function AfterRounds(s: Pool, rounds: seq<Round>): Pool
    decreases |rounds|
  {
    if rounds == [] then s else AfterRounds(AfterRound(s, rounds[0]), rounds[1..])
  }

  /** A row keeps its place and its height. */
  ghost predicate Placed(s: Pool, id: string, height: nat) {
    Inv(s) && id in s.db.blocks && s.db.blocks[id].height == height
  }

  lemma RunKeepsPlace(s: Pool, acts: seq<Action>, id: string, height: nat)
    requires Placed(s, id, height)
    ensures Placed(Run(s, acts), id, height)
  {
    RunKeepsInv(s, acts);
    RunEvolves(s, acts);
    assert Evolves(s.db.blocks[id], Run(s, acts).db.blocks[id]);
  }

  lemma RoundAdvances(s: Pool, id: string, height: nat, round: Round)
    requires Placed(s, id, height) && IsRound(s, round, height)
    ensures var t := AfterRound(s, round);
      && Placed(t, id, height)
      && PendingUpTo(t.db.blocks, height) <= PendingUpTo(s.db.blocks, height)
      && (id in PendingUpTo(t.db.blocks, height) ==>
        |PendingUpTo(t.db.blocks, height)| + 1000 <= |PendingUpTo(s.db.blocks, height)|)
  {
    var u := Run(s, round.before);
    RunKeepsPlace(s, round.before, id, height);
    StepsKeepLower(s, round.before, height);
    CardinalityMonotone(PendingUpTo(u.db.blocks, height), PendingUpTo(s.db.blocks, height));
    PassAdvances(u, id, height, round.page, round.pass);
    BeginKeepsInv(u, round.page);
    RunKeepsPlace(Begun(u, round.page), round.pass, id, height);
  }

  lemma {:induction false} RoundsAdvance(s: Pool, id: string, height: nat, rounds: seq<Round>)
    requires Placed(s, id, height) && AreRounds(s, rounds, height)
    ensures var t := AfterRounds(s, rounds);
      && PendingUpTo(t.db.blocks, height) <= PendingUpTo(s.db.blocks, height)
      && (id in PendingUpTo(t.db.blocks, height) ==>
        |PendingUpTo(t.db.blocks, height)| + 1000 * |rounds| <= |PendingUpTo(s.db.blocks, height)|)
    decreases |rounds|
  {
    if rounds != [] {
      RoundAdvances(s, id, height, rounds[0]);
      RoundsAdvance(AfterRound(s, rounds[0]), id, height, rounds[1..]);
    }
  }

  /** The steps of these rounds, one after the other. */
  ghost function RoundActs(round: Round): seq<Action> {
    round.before + ([BeginSync(round.page)] + round.pass)
  }

  ghost function RoundsActs(rounds: seq<Round>): seq<Action> {
    if rounds == [] then [] else RoundActs(rounds[0]) + RoundsActs(rounds[1..])
  }

  lemma RoundIsRun(s: Pool, round: Round, height: nat)
    requires IsRound(s, round, height)
    ensures AfterRound(s, round) == Run(s, RoundActs(round))
  {
    RunConcat(s, round.before, [BeginSync(round.page)] + round.pass);
    PassIsRun(Run(s, round.before), round.page, round.pass, height);
  }

  lemma {:induction false} RoundsAreRun(s: Pool, rounds: seq<Round>, height: nat)
    requires AreRounds(s, rounds, height)
    ensures AfterRounds(s, rounds) == Run(s, RoundsActs(rounds))
    decreases |rounds|
  {
    if rounds != [] {
      RoundIsRun(s, rounds[0], height);
      RoundsAreRun(AfterRound(s, rounds[0]), rounds[1..], height);
      RunConcat(s, RoundActs(rounds[0]), RoundsActs(rounds[1..]));
    }
  }

  /**
    No candidate starves. Whatever happens between the passes, and whatever
    workers do during them, a candidate is resolved by the time that
    ahead / 1000 + 1 conclusive passes have been made, provided blocks found
    meanwhile are higher than it.
   */
  lemma NoCandidateStarves(acts: seq<Action>, id: string, rounds: seq<Round>)
    requires id in Run(START, acts).db.blocks
    requires AreRounds(Run(START, acts), rounds, Run(START, acts).db.blocks[id].height)
    requires |rounds| >= |Ahead(Run(START, acts).db.blocks, id)| / 1000 + 1
    ensures !IsPending(Run(START, acts + RoundsActs(rounds)).db.blocks, id)
  {
    Reachable(acts);
    var s := Run(START, acts);
    ResolvedInTime(s, id, s.db.blocks[id].height, rounds);
    RoundsAreRun(s, rounds, s.db.blocks[id].height);
    RunConcat(START, acts, RoundsActs(rounds));
  }

  lemma ResolvedInTime(s: Pool, id: string, height: nat, rounds: seq<Round>)
    requires Placed(s, id, height) && AreRounds(s, rounds, height)
    requires |rounds| >= |Ahead(s.db.blocks, id)| / 1000 + 1
    ensures !IsPending(AfterRounds(s, rounds).db.blocks, id)
  {
    var t := AfterRounds(s, rounds);
    RoundsAdvance(s, id, height, rounds);
    RoundsKeepPlace(s, id, height, rounds);
    AheadSize(s.db.blocks, id);
    assert id in PendingUpTo(t.db.blocks, height) ==> |PendingUpTo(t.db.blocks, height)| > 0;
  }

  lemma AheadSize(blocks: map<string, Block>, id: string)
    requires id in blocks
    ensures |PendingUpTo(blocks, blocks[id].height)| <= |Ahead(blocks, id)| + 1
  {
    var all := PendingUpTo(blocks, blocks[id].height);
    assert all <= Ahead(blocks, id) + {id};
    CardinalityMonotone(all, Ahead(blocks, id) + {id});
  }

  lemma {:induction false} RoundsKeepPlace(s: Pool, id: string, height: nat, rounds: seq<Round>)
    requires Placed(s, id, height) && AreRounds(s, rounds, height)
    ensures Placed(AfterRounds(s, rounds), id, height)
    decreases |rounds|
  {
    if rounds != [] {
      RoundAdvances(s, id, height, rounds[0]);
      RoundsKeepPlace(AfterRound(s, rounds[0]), id, height, rounds[1..]);
    }
  }
}
