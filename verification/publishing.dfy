// Jobs the server remembers and the order in which clients are told of them,
// with any number of publishers at work (internal/stratum/server.go).

module Publishing {

  const MAX_REMEMBERED: nat := 8192

  /** A published job: its number, the client it belongs to and its difficulty. */
  datatype Job = Job(sequence: nat, client: nat, difficulty: real)

  function HexDigit(d: nat): char
    requires d < 16
  {
    if d < 10 then ('0' as int + d) as char else ('a' as int + d - 10) as char
  }

  /** Lower-case hexadecimal without leading zeros. */
  function Hex(n: nat): string {
    if n < 16 then [HexDigit(n)] else Hex(n / 16) + [HexDigit(n % 16)]
  }

  lemma {:induction false} HexInjective(m: nat, n: nat)
    requires Hex(m) == Hex(n)
    ensures m == n
  {
    HexNonEmpty(m / 16);
    HexNonEmpty(n / 16);
    assert Hex(m)[|Hex(m)| - 1] == HexDigit(m % 16) && Hex(n)[|Hex(n)| - 1] == HexDigit(n % 16);
    if m >= 16 && n >= 16 {
      assert Hex(m)[..|Hex(m)| - 1] == Hex(m / 16) && Hex(n)[..|Hex(n)| - 1] == Hex(n / 16);
      HexInjective(m / 16, n / 16);
    }
  }

  function HexDigitValue(c: char): nat {
    if '0' <= c <= '9' then c as int - '0' as int else if 'a' <= c <= 'f' then c as int - 'a' as int + 10 else 0
  }

  /** The number that lower-case hexadecimal digits denote. */
  function HexValue(text: string): nat {
    if text == "" then 0 else 16 * HexValue(text[..|text| - 1]) + HexDigitValue(text[|text| - 1])
  }

  /** The text of a number reads back as that number, and has no leading zero. */
  lemma {:induction false} HexRoundTrip(n: nat)
    ensures HexValue(Hex(n)) == n && Hex(n) != "" && (n > 0 ==> Hex(n)[0] != '0')
  {
    if n >= 16 {
      HexRoundTrip(n / 16);
      assert Hex(n)[..|Hex(n)| - 1] == Hex(n / 16);
    } else {
      assert Hex(n)[..0] == "";
    }
  }

  lemma HexNonEmpty(n: nat)
    ensures |Hex(n)| > 0
  {
  }

  // ----- The bounded registry

  function LastOf(history: seq<Job>, n: nat): seq<Job>
    requires n <= |history|
  {
    history[|history| - n..]
  }

  /** The most recently registered jobs. */
  function Newest(history: seq<Job>): seq<Job> {
    LastOf(history, if |history| <= MAX_REMEMBERED then |history| else MAX_REMEMBERED)
  }

  ghost predicate Distinct(history: seq<Job>) {
    forall i, j :: 0 <= i < j < |history| ==> history[i].sequence != history[j].sequence
  }

  /** The order lists exactly the given jobs, oldest first, and the map holds each of them under its own id. */
  ghost predicate Holds(jobs: map<string, Job>, order: seq<string>, kept: seq<Job>) {
    && |order| == |kept|
    && (forall i :: 0 <= i < |kept| ==> order[i] == Hex(kept[i].sequence))
    && (forall id :: id in jobs <==> id in order)
    && (forall i :: 0 <= i < |kept| ==> order[i] in jobs && jobs[order[i]] == kept[i])
  }

  lemma HoldsIsBounded(jobs: map<string, Job>, order: seq<string>, history: seq<Job>)
    requires Distinct(history) && Holds(jobs, order, Newest(history))
    ensures |order| <= MAX_REMEMBERED
    ensures forall i, j :: 0 <= i < j < |order| ==> order[i] != order[j]
    ensures forall job :: job in Newest(history) ==> Hex(job.sequence) in jobs && jobs[Hex(job.sequence)] == job
  {
    var kept := Newest(history);
    forall i, j | 0 <= i < j < |order| ensures order[i] != order[j] {
      assert kept[i].sequence != kept[j].sequence;
      if order[i] == order[j] {
        HexInjective(kept[i].sequence, kept[j].sequence);
      }
    }
    forall job | job in kept ensures Hex(job.sequence) in jobs && jobs[Hex(job.sequence)] == job {
      var i :| 0 <= i < |kept| && kept[i] == job;
      assert order[i] in jobs;
    }
  }

  lemma HoldsAdded(jobs: map<string, Job>, order: seq<string>, kept: seq<Job>, job: Job)
    requires Holds(jobs, order, kept) && Distinct(kept + [job])
    ensures Holds(jobs[Hex(job.sequence) := job], order + [Hex(job.sequence)], kept + [job])
  {
    forall i | 0 <= i < |kept| ensures order[i] != Hex(job.sequence) {
      assert (kept + [job])[i].sequence != (kept + [job])[|kept|].sequence;
      if order[i] == Hex(job.sequence) {
        HexInjective(kept[i].sequence, job.sequence);
      }
    }
  }

  lemma HoldsWithoutOldest(jobs: map<string, Job>, order: seq<string>, kept: seq<Job>)
    requires Holds(jobs, order, kept) && Distinct(kept) && |kept| > 0
    ensures Holds(jobs - {order[0]}, order[1..], kept[1..])
  {
    forall i | 1 <= i < |kept| ensures order[i] != order[0] {
      if order[i] == order[0] {
        HexInjective(kept[i].sequence, kept[0].sequence);
      }
    }
    assert order == [order[0]] + order[1..];
  }

  lemma LastOfAppend(history: seq<Job>, n: nat, job: Job)
    requires n <= |history| && Distinct(history + [job])
    ensures LastOf(history, n) + [job] == LastOf(history + [job], n + 1)
    ensures Distinct(LastOf(history, n) + [job])
  {
    var all, kept := history + [job], LastOf(history, n) + [job];
    assert forall i :: 0 <= i < |kept| ==> kept[i] == all[|history| - n + i];
  }

  lemma LastOfRest(history: seq<Job>, n: nat)
    requires 0 < n <= |history| && Distinct(history)
    ensures LastOf(history, n)[1..] == LastOf(history, n - 1)
    ensures Distinct(LastOf(history, n))
  {
    assert forall i :: 0 <= i < n ==> LastOf(history, n)[i] == history[|history| - n + i];
  }

  /** A tail of the history is held, and it is not shorter than it has to be. */
  ghost predicate Trimming(jobs: map<string, Job>, order: seq<string>, history: seq<Job>) {
    && |order| <= |history| && (|order| >= MAX_REMEMBERED || |order| == |history|)
    && Holds(jobs, order, LastOf(history, |order|))
  }

  lemma TrimOldest(jobs: map<string, Job>, order: seq<string>, history: seq<Job>)
    requires Distinct(history) && Trimming(jobs, order, history) && |order| > MAX_REMEMBERED
    ensures Trimming(jobs - {order[0]}, order[1..], history)
  {
    LastOfRest(history, |order|);
    HoldsWithoutOldest(jobs, order, LastOf(history, |order|));
  }

  lemma Trimmed(jobs: map<string, Job>, order: seq<string>, history: seq<Job>)
    requires Trimming(jobs, order, history) && |order| <= MAX_REMEMBERED
    ensures Holds(jobs, order, Newest(history))
  {
    assert LastOf(history, |order|) == Newest(history);
  }

  class Registry {
    var jobs: map<string, Job>
    var jobOrder: seq<string>
    ghost var history: seq<Job>

    ghost predicate Valid()
      reads this
    {
      Distinct(history) && Holds(jobs, jobOrder, Newest(history))
    }

    constructor ()
      ensures Valid() && history == []
    {
      jobs, jobOrder, history := map[], [], [];
    }

    /** Registers a job under a number never used before and forgets the oldest beyond the limit. */
    method Register(job: Job)
      requires Valid() && Distinct(history + [job])
      modifies this
      ensures Valid() && history == old(history) + [job]
    {
      LastOfAppend(history, |jobOrder|, job);
      HoldsAdded(jobs, jobOrder, Newest(history), job);
      history := history + [job];
      jobs := jobs[Hex(job.sequence) := job];
      jobOrder := jobOrder + [Hex(job.sequence)];
      ForgetOldest();
    }

    /** Forgets jobs, oldest first, until no more than the limit are left. */
    method ForgetOldest()
      requires Distinct(history) && Trimming(jobs, jobOrder, history)
      modifies this`jobs, this`jobOrder
      ensures Valid()
    {
      while |jobOrder| > MAX_REMEMBERED
        invariant Trimming(jobs, jobOrder, history)
        decreases |jobOrder|
      {
        TrimOldest(jobs, jobOrder, history);
        jobs := jobs - {jobOrder[0]};
        jobOrder := jobOrder[1..];
      }
      Trimmed(jobs, jobOrder, history);
    }

    /** A remembered job, or none. */
    method Lookup(id: string) returns (found: bool, job: Job)
      requires Valid()
      ensures found <==> exists i :: |history| - 8192 <= i < |history| && i >= 0 && Hex(history[i].sequence) == id
      ensures found ==> exists i :: |history| - 8192 <= i < |history| && i >= 0 && history[i] == job
      ensures found ==> Hex(job.sequence) == id
    {
      HoldsIsBounded(jobs, jobOrder, history);
      found := id in jobs;
      job := if found then jobs[id] else Job(0, 0, 0.0);
      if found {
        var i :| 0 <= i < |jobOrder| && jobOrder[i] == id;
        assert Newest(history)[i] == job;
      } else {
        assert forall i :: 0 <= i < |Newest(history)| ==> jobOrder[i] in jobs;
      }
    }
  }

  /** The part of a client that decides what it is told. */
  class Receiver {
    var lastJob: nat
    var lastDifficulty: real

    constructor ()
      ensures lastJob == 0 && lastDifficulty == 0.0
    {
      lastJob, lastDifficulty := 0, 0.0;
    }

    /** Drops a job that a newer one has overtaken; otherwise says what is to be sent. */
    method SendJob(job: Job) returns (announce: bool, newDifficulty: bool)
      modifies this
      ensures announce <==> job.sequence > old(lastJob)
      ensures lastJob == (if announce then job.sequence else old(lastJob)) >= old(lastJob)
      ensures lastDifficulty == if announce then job.difficulty else old(lastDifficulty)
      ensures newDifficulty <==> announce && old(lastDifficulty) != job.difficulty
    {
      if job.sequence <= lastJob {
        return false, false;
      }
      newDifficulty := lastDifficulty != job.difficulty;
      if newDifficulty {
        lastDifficulty := job.difficulty;
      }
      lastJob := job.sequence;
      announce := true;
    }
  }

  // ----- Publishers interleaved

  /** Publishers draw a number, later register their job, later still send it. */
  datatype State = State(
    counter: nat,
    drafts: map<nat, Job>,        // drawn but not yet registered, by number
    history: seq<Job>,            // registered, in registration order
    lastJob: map<nat, nat>,       // by client
    announced: seq<Job>)          // told to clients, in that order

  datatype Step =
    | Draw(client: nat, difficulty: real)
    | Register(number: nat)
    | Send(index: nat)

  function LastJob(s: State, client: nat): nat {
    if client in s.lastJob then s.lastJob[client] else 0
  }

  function Next(s: State, step: Step): State {
    match step
    case Draw(client, difficulty) =>
      s.(counter := s.counter + 1, drafts := s.drafts[s.counter + 1 := Job(s.counter + 1, client, difficulty)])
    case Register(number) =>
      if number in s.drafts then s.(drafts := s.drafts - {number}, history := s.history + [s.drafts[number]]) else s
    case Send(index) =>
      if index < |s.history| && s.history[index].sequence > LastJob(s, s.history[index].client) then
        var job := s.history[index];
        s.(lastJob := s.lastJob[job.client := job.sequence], announced := s.announced + [job])
      else s
  }

  function After(steps: seq<Step>): State {
    if steps == [] then State(0, map[], [], map[], []) else Next(After(steps[..|steps| - 1]), steps[|steps| - 1])
  }

  ghost predicate Ordered(s: State) {
    && (forall n :: n in s.drafts ==> s.drafts[n].sequence == n <= s.counter)
    && Distinct(s.history)
    && (forall i :: 0 <= i < |s.history| ==> s.history[i].sequence <= s.counter && s.history[i].sequence !in s.drafts)
    && (forall i :: 0 <= i < |s.announced| ==> s.announced[i].sequence <= LastJob(s, s.announced[i].client))
    && Increasing(s.announced)
  }

  /** No client is ever told of a job older than one it already has. */
  ghost predicate Increasing(announced: seq<Job>) {
    forall i, j :: 0 <= i < j < |announced| && announced[i].client == announced[j].client ==>
      announced[i].sequence < announced[j].sequence
  }

  lemma NextKeepsOrdered(s: State, step: Step)
    requires Ordered(s)
    ensures Ordered(Next(s, step))
  {
    var t := Next(s, step);
    if t.announced != s.announced {
      var job := s.history[step.index];
      forall i, j | 0 <= i < j < |t.announced| && t.announced[i].client == t.announced[j].client
        ensures t.announced[i].sequence < t.announced[j].sequence
      {
        if j == |s.announced| {
          assert s.announced[i].sequence <= LastJob(s, s.announced[i].client);
        }
      }
    }
  }

  /**
    Under every interleaving of publishers the registered numbers stay distinct,
    so the registry holds each id's own job, and every client sees its jobs in
    strictly increasing order.
   */
  lemma {:induction false} PublishersInOrder(steps: seq<Step>)
    ensures Ordered(After(steps))
    ensures Distinct(After(steps).history) && Increasing(After(steps).announced)
  {
    if steps != [] {
      PublishersInOrder(steps[..|steps| - 1]);
      NextKeepsOrdered(After(steps[..|steps| - 1]), steps[|steps| - 1]);
    }
  }
}
