// From a job and a submission to the 80-byte work header, and why no two
// miners can hash the same header (internal/stratum/work.go, server.go).

module Headers {
  import opened Arith
  import opened Targets

  /**
    A 32-byte value: a transaction leaf, a pair, or any other value that a node
    may list. BLAKE2b-256 is taken to be free of collisions, with leaves (prefix
    0) apart from pairs (prefix 1).
   */
  datatype Digest =
    | Leaf(transaction: seq<Byte>)
    | Pair(left: Digest, right: Digest)
    | Other(bytes: seq<Byte>)

  type Bytes32 = s: seq<Byte> | |s| == 32 witness seq(32, _ => 0)

  datatype Template = Template(
    parent: Digest, timestamp: nat, coinbase1: seq<Byte>, coinbase2: seq<Byte>,
    extra1Size: nat, extra2Size: nat, branch: seq<Digest>, target: Bytes32)

  datatype Job = Job(template: Template, client: nat, timestamp: nat, extraNonce1: seq<Byte>, shareTarget: Bytes32)

  datatype Header = Header(parent: Digest, nonce: seq<Byte>, time: seq<Byte>, root: Digest)

  datatype Solved = Solved(header: Header, network: bool) | Rejected(reason: string)

  /** The hash of a header, of which only the length is used. */
  type HeaderHash = Header -> Bytes32

  // ----- Little-endian numbers

  /** The low n bytes of a number, least significant first. */
  function LittleEndian(value: nat, n: nat): seq<Byte> {
    if n == 0 then [] else [value % 256] + LittleEndian(value / 256, n - 1)
  }

  function FromLittleEndian(bytes: seq<Byte>): nat {
    if bytes == [] then 0 else bytes[0] + 256 * FromLittleEndian(bytes[1..])
  }

  function Pow256(n: nat): nat {
    if n == 0 then 1 else 256 * Pow256(n - 1)
  }

  lemma {:induction false} LittleEndianRoundTrip(value: nat, n: nat)
    requires value < Pow256(n)
    ensures |LittleEndian(value, n)| == n && FromLittleEndian(LittleEndian(value, n)) == value
  {
    if n > 0 {
      LittleEndianRoundTrip(value / 256, n - 1);
      assert LittleEndian(value, n)[1..] == LittleEndian(value / 256, n - 1);
    }
  }

  /** Byte i is the digit of weight 256^i. */
  lemma {:induction false} LittleEndianDigit(value: nat, n: nat, i: nat)
    requires i < n
    ensures |LittleEndian(value, n)| == n && LittleEndian(value, n)[i] == Shifted(value, i) % 256
  {
    LittleEndianLength(value, n);
    if i > 0 {
      LittleEndianDigit(value / 256, n - 1, i - 1);
    }
  }

  /** Division by 256, i times. */
  function Shifted(value: nat, i: nat): nat {
    if i == 0 then value else Shifted(value / 256, i - 1)
  }

  lemma {:induction false} BytesRoundTrip(bytes: seq<Byte>)
    ensures FromLittleEndian(bytes) < Pow256(|bytes|)
    ensures LittleEndian(FromLittleEndian(bytes), |bytes|) == bytes
  {
    if bytes != [] {
      BytesRoundTrip(bytes[1..]);
      assert bytes == [bytes[0]] + bytes[1..];
      var value := FromLittleEndian(bytes);
      DivisionUnique(256, value / 256, FromLittleEndian(bytes[1..]), value % 256, bytes[0]);
    }
  }

  // ----- The Merkle root

  ghost function Fold(branch: seq<Digest>, root: Digest): Digest {
    if branch == [] then root else Fold(branch[1..], Pair(branch[0], root))
  }

  /** The last listed hash is the left child of the root. */
  lemma {:induction false} FoldLast(branch: seq<Digest>, last: Digest, root: Digest)
    ensures Fold(branch + [last], root) == Pair(last, Fold(branch, root))
    decreases |branch|
  {
    if branch == [] {
      assert branch + [last] == [last];
      assert Fold([last], root) == Fold([], Pair(last, root));
    } else {
      FoldLast(branch[1..], last, Pair(branch[0], root));
      assert (branch + [last])[1..] == branch[1..] + [last];
    }
  }

  /** The root determines the branch and the transaction, even between branches of different depth. */
  lemma {:induction false} FoldInjective(b: seq<Digest>, t: seq<Byte>, c: seq<Digest>, u: seq<Byte>)
    requires Fold(b, Leaf(t)) == Fold(c, Leaf(u))
    ensures b == c && t == u
    decreases |b|
  {
    if b != [] {
      FoldLast(b[..|b| - 1], b[|b| - 1], Leaf(t));
      assert b == b[..|b| - 1] + [b[|b| - 1]];
    }
    if c != [] {
      FoldLast(c[..|c| - 1], c[|c| - 1], Leaf(u));
      assert c == c[..|c| - 1] + [c[|c| - 1]];
    }
    if b != [] && c != [] {
      FoldInjective(b[..|b| - 1], t, c[..|c| - 1], u);
    }
  }

  /** Hashes the transaction up along the branch, left siblings first to last. */
  method MerkleRoot(branch: seq<Digest>, transaction: seq<Byte>) returns (root: Digest)
    ensures root == Fold(branch, Leaf(transaction))
  {
    root := Leaf(transaction);
    for i := 0 to |branch|
      invariant Fold(branch[i..], root) == Fold(branch, Leaf(transaction))
    {
      assert branch[i..][1..] == branch[i + 1..];
      root := Pair(branch[i], root);
    }
  }

  /** A Merkle tree of transactions, the coinbase being the last one. */
  datatype Tree = Tip(digest: Digest) | Node(left: Tree, right: Tree)

  ghost function Root(tree: Tree): Digest {
    match tree
    case Tip(digest) => digest
    case Node(left, right) => Pair(Root(left), Root(right))
  }

  /** The roots left of the path from the last transaction up to the root. */
  ghost function LeftSiblings(tree: Tree): seq<Digest> {
    match tree
    case Tip(_) => []
    case Node(left, right) => LeftSiblings(right) + [Root(left)]
  }

  ghost function WithLast(tree: Tree, last: Digest): Tree {
    match tree
    case Tip(_) => Tip(last)
    case Node(left, right) => Node(left, WithLast(right, last))
  }

  /** Folding a coinbase into the branch of a tree gives the root of that tree with the coinbase put in its place. */
  lemma {:induction false} FoldIsRoot(tree: Tree, last: Digest)
    ensures Fold(LeftSiblings(tree), last) == Root(WithLast(tree, last))
  {
    match tree {
      case Tip(_) =>
      case Node(left, right) =>
        FoldIsRoot(right, last);
        FoldLast(LeftSiblings(right), Root(left), last);
    }
  }

  // ----- Solving

  function Coinbase(job: Job, extra2: seq<Byte>): seq<Byte> {
    job.template.coinbase1 + job.extraNonce1 + extra2 + job.template.coinbase2
  }

  const BAD_EXTRA1 := "job has an invalid server extranonce"
  const BAD_EXTRA2 := "extranonce2 has the wrong size"
  const BAD_TIME := "timestamp must contain 8 bytes of hexadecimal data"
  const OTHER_TIME := "timestamp does not match the assigned job"
  const LOW_DIFFICULTY := "low difficulty share"
  const BAD_NONCE := "nonce must contain 8 bytes of hexadecimal data"

  ghost predicate Accepts(job: Job, extra2: seq<Byte>, time: seq<Byte>, nonce: seq<Byte>) {
    && |job.extraNonce1| == job.template.extra1Size && |extra2| == job.template.extra2Size
    && |time| == 8 && FromLittleEndian(time) == job.timestamp && |nonce| == 8
  }

  /** A hash is compared with a target as a number. */
  predicate Meets(hash: Bytes32, target: Bytes32) {
    BigEndian(hash) <= BigEndian(target)
  }

  ghost function WorkHeader(job: Job, extra2: seq<Byte>, time: seq<Byte>, nonce: seq<Byte>): Header {
    Header(job.template.parent, nonce, time, Fold(job.template.branch, Leaf(Coinbase(job, extra2))))
  }

  /** The header names the parent, the submitted nonce and time, and the root over the job's branch and coinbase. */
  ghost predicate Fills(header: Header, job: Job, extra2: seq<Byte>, time: seq<Byte>, nonce: seq<Byte>) {
    && header.parent == job.template.parent && header.nonce == nonce && header.time == time
    && header.root == Fold(job.template.branch,
      Leaf(job.template.coinbase1 + (job.extraNonce1 + extra2) + job.template.coinbase2))
  }

  /**
    Rebuilds the header of a submission and compares its hash with the two
    targets: a share is at most the share target, a block at most the network's.
   */
  method Solve(job: Job, extra2: seq<Byte>, time: seq<Byte>, nonce: seq<Byte>, hash: HeaderHash) returns (r: Solved)
    ensures r.Solved? <==>
      Accepts(job, extra2, time, nonce) && Meets(hash(WorkHeader(job, extra2, time, nonce)), job.shareTarget)
    ensures r == Rejected(LOW_DIFFICULTY) <==>
      Accepts(job, extra2, time, nonce) && !Meets(hash(WorkHeader(job, extra2, time, nonce)), job.shareTarget)
    ensures r.Solved? ==> r.header == WorkHeader(job, extra2, time, nonce)
    ensures r.Solved? ==> Fills(r.header, job, extra2, time, nonce)
    ensures r.Solved? ==> (r.network <==> Meets(hash(r.header), job.template.target))
  {
    if |job.extraNonce1| != job.template.extra1Size {
      return Rejected(BAD_EXTRA1);
    }
    if |extra2| != job.template.extra2Size {
      return Rejected(BAD_EXTRA2);
    }
    if |time| != 8 {
      return Rejected(BAD_TIME);
    }
    if FromLittleEndian(time) != job.timestamp {
      return Rejected(OTHER_TIME);
    }
    if |nonce| != 8 {
      return Rejected(BAD_NONCE);
    }
    var coinbase := job.template.coinbase1 + job.extraNonce1;
    coinbase := coinbase + extra2;
    coinbase := coinbase + job.template.coinbase2;
    CoinbaseParts(job, extra2);
    var root := MerkleRoot(job.template.branch, coinbase);
    var header := Header(job.template.parent, nonce, time, root);
    var h := hash(header);
    CompareIsNumeric(h, job.shareTarget);
    CompareIsNumeric(h, job.template.target);
    if Compare(h, job.shareTarget) > 0 {
      return Rejected(LOW_DIFFICULTY);
    }
    r := Solved(header, Compare(h, job.template.target) <= 0);
  }

  /** Server and client extranonce stand side by side between prefix and suffix. */
  lemma CoinbaseParts(job: Job, extra2: seq<Byte>)
    ensures Coinbase(job, extra2)
      == job.template.coinbase1 + (job.extraNonce1 + extra2) + job.template.coinbase2
  {
    var t := job.template;
    assert t.coinbase1 + (job.extraNonce1 + extra2) == t.coinbase1 + job.extraNonce1 + extra2;
  }

  /** What a template is checked for: its own work nonce, between the two parts, reproduces its commitment. */
  ghost predicate Reconstructs(template: Template, workNonce: nat, commitment: Digest) {
    && template.extra1Size == template.extra2Size == 4
    && Fold(template.branch, Leaf(template.coinbase1 + LittleEndian(workNonce, 8) + template.coinbase2)) == commitment
  }

  lemma {:induction false} LittleEndianLength(value: nat, n: nat)
    ensures |LittleEndian(value, n)| == n
  {
    if n > 0 {
      LittleEndianLength(value / 256, n - 1);
    }
  }

  lemma MiddleDetermined(prefix: seq<Byte>, a: seq<Byte>, b: seq<Byte>, suffix: seq<Byte>)
    requires |a| == |b| && prefix + a + suffix == prefix + b + suffix
    ensures a == b
  {
    assert a == (prefix + a + suffix)[|prefix|..|prefix| + |a|];
    assert b == (prefix + b + suffix)[|prefix|..|prefix| + |b|];
  }

  /**
    An accepted submission commits to the node's own transactions exactly when
    its two extranonces are the template's work nonce.
   */
  lemma {:induction false} CommitsToTemplate(
      job: Job, extra2: seq<Byte>, time: seq<Byte>, nonce: seq<Byte>, workNonce: nat, commitment: Digest)
    requires Accepts(job, extra2, time, nonce) && Reconstructs(job.template, workNonce, commitment)
    ensures WorkHeader(job, extra2, time, nonce).root == commitment <==>
      job.extraNonce1 + extra2 == LittleEndian(workNonce, 8)
  {
    var t := job.template;
    CoinbaseParts(job, extra2);
    LittleEndianLength(workNonce, 8);
    var own := t.coinbase1 + LittleEndian(workNonce, 8) + t.coinbase2;
    if WorkHeader(job, extra2, time, nonce).root == commitment {
      FoldInjective(t.branch, Coinbase(job, extra2), t.branch, own);
      MiddleDetermined(t.coinbase1, job.extraNonce1 + extra2, LittleEndian(workNonce, 8), t.coinbase2);
    }
  }

  lemma {:induction false} BigEndianBound(bytes: seq<Byte>)
    ensures BigEndian(bytes) < Pow256(|bytes|)
  {
    if bytes != [] {
      BigEndianBound(bytes[..|bytes| - 1]);
    }
  }

  lemma Pow256At32()
    ensures Pow256(32) == TWO_TO_256
  {
    assert Pow256(8) == 0x1_0000_0000_0000_0000;
    assert Pow256(16) == 0x1_0000_0000_0000_0000_0000_0000_0000_0000;
    assert Pow256(24) == 0x1_0000_0000_0000_0000_0000_0000_0000_0000_0000_0000_0000_0000;
  }

  function Number(bytes: Bytes32): Target {
    BigEndianBound(bytes);
    Pow256At32();
    BigEndian(bytes)
  }

  /** No block is rejected as a low difficulty share: a hash that meets the block target meets the share target. */
  lemma {:induction false} NoBlockIsLowDifficulty(job: Job, r: Rounding, difficulty: real, hash: Bytes32)
    requires Faithful(r) && r.grid(difficulty) && difficulty > 0.0 && Number(job.template.target) > 0
    requires Number(job.shareTarget) == JobTarget(r, difficulty, Number(job.template.target))
    ensures Compare(hash, job.template.target) <= 0 ==> Compare(hash, job.shareTarget) <= 0
  {
    WinningHashIsShare(r, difficulty, Number(job.template.target), Number(hash));
    CompareIsNumeric(hash, job.template.target);
    CompareIsNumeric(hash, job.shareTarget);
  }

  /** With coinbase prefixes of one length, equal headers have equal extranonces, times and nonces. */
  lemma HeaderDetermines(
      j: Job, e: seq<Byte>, s: seq<Byte>, n: seq<Byte>,
      k: Job, f: seq<Byte>, t: seq<Byte>, m: seq<Byte>)
    requires Collide(j, e, s, n, k, f, t, m)
    requires |j.template.coinbase1| == |k.template.coinbase1|
    requires j.template.extra1Size == k.template.extra1Size && j.template.extra2Size == k.template.extra2Size
    ensures n == m && s == t && e == f && j.extraNonce1 == k.extraNonce1 && j.timestamp == k.timestamp
  {
    FoldInjective(j.template.branch, Coinbase(j, e), k.template.branch, Coinbase(k, f));
    var p, q, r := |j.template.coinbase1|, |j.extraNonce1|, |e|;
    var a, b := Coinbase(j, e), Coinbase(k, f);
    assert j.extraNonce1 == a[p..p + q] && k.extraNonce1 == b[p..p + q];
    assert e == a[p + q..p + q + r] && f == b[p + q..p + q + r];
  }

  /** Two accepted submissions with one header. */
  ghost predicate Collide(
      j: Job, e: seq<Byte>, s: seq<Byte>, n: seq<Byte>,
      k: Job, f: seq<Byte>, t: seq<Byte>, m: seq<Byte>)
  {
    Accepts(j, e, s, n) && Accepts(k, f, t, m) && WorkHeader(j, e, s, n) == WorkHeader(k, f, t, m)
  }

  // ----- Handing out work

  const TWO_TO_32: nat := 0x1_0000_0000
  const TWO_TO_63: nat := 0x8000_0000_0000_0000
  const TWO_TO_64: nat := 0x1_0000_0000_0000_0000

  /** The time given to a client's next job, in 64-bit arithmetic. */
  function NextTime(last: nat, candidate: nat): nat {
    if candidate <= last then (last + 1) % TWO_TO_64 else candidate
  }

  class Miner {
    const extraNonce: seq<Byte>
    var lastTime: nat

    constructor (sequence: nat)
      ensures extraNonce == LittleEndian(sequence % TWO_TO_32, 4) && lastTime == 0
    {
      extraNonce := LittleEndian(sequence % TWO_TO_32, 4);
      lastTime := 0;
    }

    /** The given time, or one second after the last one. */
    method JobTimestamp(candidate: nat) returns (time: nat)
      modifies this
      ensures time == lastTime == NextTime(old(lastTime), candidate)
      ensures candidate < TWO_TO_64 && old(lastTime) + 1 < TWO_TO_64 ==> old(lastTime) < time && candidate <= time
    {
      time := candidate;
      if time <= lastTime {
        time := (lastTime + 1) % TWO_TO_64;
      }
      lastTime := time;
    }
  }

  /** What the server has handed out: its extranonce counter, its clients and every job so far. */
  datatype Work = Work(sequence: nat, nonces: seq<seq<Byte>>, lastTimes: seq<nat>, jobs: seq<Job>)

  datatype Event =
    | Connect
    | Issue(client: nat, template: Template, now: nat, shareTarget: Bytes32)

  /** `now` and template times are signed 64-bit Unix times. */
  ghost predicate Usable(event: Event) {
    event.Issue? ==>
      && event.now < TWO_TO_63 && event.template.timestamp < TWO_TO_63
      && event.template.extra1Size == event.template.extra2Size == 4
  }

  function Handle(w: Work, event: Event): Work {
    match event
    case Connect =>
      var sequence := (w.sequence + 1) % TWO_TO_32;
      w.(sequence := sequence, nonces := w.nonces + [LittleEndian(sequence, 4)], lastTimes := w.lastTimes + [0])
    case Issue(client, template, now, shareTarget) =>
      if client < |w.nonces| && client < |w.lastTimes| then
        var time := NextTime(w.lastTimes[client], if now < template.timestamp then template.timestamp else now);
        var job := Job(template, client, time, w.nonces[client], shareTarget);
        w.(lastTimes := w.lastTimes[client := time], jobs := w.jobs + [job])
      else w
  }

  function HandleAll(w: Work, events: seq<Event>): Work {
    if events == [] then w else Handle(HandleAll(w, events[..|events| - 1]), events[|events| - 1])
  }

  function Fresh(seed: nat): Work {
    Work(seed % TWO_TO_32, [], [], [])
  }

  /** Client i took the (i+1)-st number after the seed. */
  ghost predicate Numbered(w: Work, seed: nat) {
    && |w.nonces| == |w.lastTimes| && w.sequence == (seed + |w.nonces|) % TWO_TO_32
    && (forall i :: 0 <= i < |w.nonces| ==> w.nonces[i] == LittleEndian((seed + i + 1) % TWO_TO_32, 4))
  }

  /** Times grow by at most one per event beyond the clock. */
  ghost predicate Timed(w: Work, events: nat) {
    forall i :: 0 <= i < |w.lastTimes| ==> w.lastTimes[i] < TWO_TO_63 + events
  }

  ghost predicate JobOf(w: Work, job: Job) {
    && job.client < |w.nonces| && job.client < |w.lastTimes|
    && job.extraNonce1 == w.nonces[job.client] && job.timestamp <= w.lastTimes[job.client]
    && job.template.extra1Size == job.template.extra2Size == 4
  }

  /** Every job carries its client's extranonce. */
  ghost predicate Owned(w: Work) {
    forall i :: 0 <= i < |w.jobs| ==> JobOf(w, w.jobs[i])
  }

  /** The times of one client's jobs strictly increase. */
  ghost predicate Rising(jobs: seq<Job>) {
    forall i, j :: 0 <= i < j < |jobs| && jobs[i].client == jobs[j].client ==> jobs[i].timestamp < jobs[j].timestamp
  }

  ghost predicate Separate(w: Work, seed: nat, events: nat) {
    |w.nonces| + |w.jobs| <= events && Numbered(w, seed) && Timed(w, events) && Owned(w) && Rising(w.jobs)
  }

  lemma ModSuccessor(a: nat)
    ensures (a % TWO_TO_32 + 1) % TWO_TO_32 == (a + 1) % TWO_TO_32
  {
  }

  lemma ConnectNumbered(w: Work, seed: nat)
    requires Numbered(w, seed)
    ensures Numbered(Handle(w, Connect), seed)
  {
    ModSuccessor(seed + |w.nonces|);
  }

  lemma ConnectOwned(w: Work)
    requires Owned(w)
    ensures Owned(Handle(w, Connect))
  {
    var next := Handle(w, Connect);
    forall i | 0 <= i < |next.jobs| ensures JobOf(next, next.jobs[i]) {
      assert JobOf(w, w.jobs[i]);
    }
  }

  lemma ConnectSeparates(w: Work, seed: nat, events: nat)
    requires Separate(w, seed, events)
    ensures Separate(Handle(w, Connect), seed, events + 1)
  {
    ConnectNumbered(w, seed);
    ConnectOwned(w);
  }

  /** The time of a client's next job is past its last one and no more than one beyond the clock. */
  lemma NextTimeGrows(last: nat, candidate: nat, events: nat)
    requires last < TWO_TO_63 + events && candidate < TWO_TO_63 && events < TWO_TO_63
    ensures last < NextTime(last, candidate) < TWO_TO_63 + events + 1
  {
  }

  /** What a new job changes: its client's last time, and the jobs. */
  ghost function Issued(w: Work, job: Job): Work
    requires job.client < |w.lastTimes|
  {
    w.(lastTimes := w.lastTimes[job.client := job.timestamp], jobs := w.jobs + [job])
  }

  lemma IssueOwned(w: Work, job: Job)
    requires Owned(w) && job.client < |w.nonces| && job.client < |w.lastTimes|
    requires w.lastTimes[job.client] < job.timestamp
    requires job.extraNonce1 == w.nonces[job.client] && job.template.extra1Size == job.template.extra2Size == 4
    ensures Owned(Issued(w, job))
  {
    var next := Issued(w, job);
    forall i | 0 <= i < |next.jobs| ensures JobOf(next, next.jobs[i]) {
      if i < |w.jobs| {
        assert JobOf(w, w.jobs[i]);
      }
    }
  }

  lemma IssueRising(w: Work, job: Job)
    requires Owned(w) && Rising(w.jobs) && job.client < |w.lastTimes| && w.lastTimes[job.client] < job.timestamp
    ensures Rising(w.jobs + [job])
  {
    forall i | 0 <= i < |w.jobs| && w.jobs[i].client == job.client ensures w.jobs[i].timestamp < job.timestamp {
      assert JobOf(w, w.jobs[i]);
    }
  }

  lemma IssueSeparates(w: Work, event: Event, seed: nat, events: nat)
    requires Separate(w, seed, events) && event.Issue? && Usable(event) && events < TWO_TO_63
    ensures Separate(Handle(w, event), seed, events + 1)
  {
    if event.client < |w.nonces| {
      var candidate := if event.now < event.template.timestamp then event.template.timestamp else event.now;
      var time := NextTime(w.lastTimes[event.client], candidate);
      var job := Job(event.template, event.client, time, w.nonces[event.client], event.shareTarget);
      NextTimeGrows(w.lastTimes[event.client], candidate, events);
      assert Handle(w, event) == Issued(w, job);
      IssueOwned(w, job);
      IssueRising(w, job);
    }
  }

  /** A new job gets the least time that is past its client's last one and behind neither the clock nor the template. */
  lemma JobTimeIsLeast(w: Work, client: nat, template: Template, now: nat, shareTarget: Bytes32, time: nat)
    requires client < |w.nonces| && client < |w.lastTimes| && w.lastTimes[client] + 1 < TWO_TO_64
    ensures var jobs := Handle(w, Issue(client, template, now, shareTarget)).jobs;
      && |jobs| == |w.jobs| + 1 && jobs[..|w.jobs|] == w.jobs
      && var job := jobs[|w.jobs|];
        && job.template == template && job.client == client
        && job.extraNonce1 == w.nonces[client] && job.shareTarget == shareTarget
        && job.timestamp >= now && job.timestamp >= template.timestamp && job.timestamp > w.lastTimes[client]
        && (time >= now && time >= template.timestamp && time > w.lastTimes[client] ==> job.timestamp <= time)
  {
  }

  lemma HandleSeparates(w: Work, event: Event, seed: nat, events: nat)
    requires Separate(w, seed, events) && Usable(event) && events < TWO_TO_63
    ensures Separate(Handle(w, event), seed, events + 1)
  {
    match event {
      case Connect => ConnectSeparates(w, seed, events);
      case Issue(_, _, _, _) => IssueSeparates(w, event, seed, events);
    }
  }

  lemma {:induction false} HandleAllSeparates(seed: nat, events: seq<Event>)
    requires forall i :: 0 <= i < |events| ==> Usable(events[i])
    requires |events| <= TWO_TO_63
    ensures Separate(HandleAll(Fresh(seed), events), seed, |events|)
  {
    if events == [] {
      assert HandleAll(Fresh(seed), events) == Fresh(seed);
    } else {
      HandleAllSeparates(seed, events[..|events| - 1]);
      HandleSeparates(HandleAll(Fresh(seed), events[..|events| - 1]), events[|events| - 1], seed, |events| - 1);
    }
  }

  lemma DistinctSequence(seed: nat, i: nat, j: nat)
    requires i <= j < i + TWO_TO_32 && (seed + i + 1) % TWO_TO_32 == (seed + j + 1) % TWO_TO_32
    ensures i == j
  {
  }

  lemma DistinctNonce(seed: nat, i: nat, j: nat)
    requires i <= j < TWO_TO_32
    requires LittleEndian((seed + i + 1) % TWO_TO_32, 4) == LittleEndian((seed + j + 1) % TWO_TO_32, 4)
    ensures i == j
  {
    assert Pow256(4) == TWO_TO_32;
    LittleEndianRoundTrip((seed + i + 1) % TWO_TO_32, 4);
    LittleEndianRoundTrip((seed + j + 1) % TWO_TO_32, 4);
    DistinctSequence(seed, i, j);
  }

  /**
    Work is disjoint: with at most 2^32 connections, two accepted submissions
    have the same header only if they are the same job of the same client with
    the same extranonce2 and nonce.
   */
  lemma WorkIsDisjoint(
      seed: nat, events: seq<Event>, i: nat, j: nat,
      e: seq<Byte>, s: seq<Byte>, n: seq<Byte>, f: seq<Byte>, t: seq<Byte>, m: seq<Byte>)
    requires forall x :: 0 <= x < |events| ==> Usable(events[x])
    requires |events| <= TWO_TO_63
    requires var w := HandleAll(Fresh(seed), events);
      && i < |w.jobs| && j < |w.jobs| && |w.nonces| <= TWO_TO_32
      && |w.jobs[i].template.coinbase1| == |w.jobs[j].template.coinbase1|
      && Collide(w.jobs[i], e, s, n, w.jobs[j], f, t, m)
    ensures i == j && e == f && n == m && s == t
  {
    HandleAllSeparates(seed, events);
    SameJob(HandleAll(Fresh(seed), events), seed, |events|, i, j, e, s, n, f, t, m);
  }

  lemma SameJob(
      w: Work, seed: nat, events: nat, i: nat, j: nat,
      e: seq<Byte>, s: seq<Byte>, n: seq<Byte>, f: seq<Byte>, t: seq<Byte>, m: seq<Byte>)
    requires Separate(w, seed, events) && i < |w.jobs| && j < |w.jobs| && |w.nonces| <= TWO_TO_32
    requires |w.jobs[i].template.coinbase1| == |w.jobs[j].template.coinbase1|
    requires Collide(w.jobs[i], e, s, n, w.jobs[j], f, t, m)
    ensures i == j && e == f && n == m && s == t
  {
    var p, q := w.jobs[i], w.jobs[j];
    assert JobOf(w, p) && JobOf(w, q);
    HeaderDetermines(p, e, s, n, q, f, t, m);
    SameClient(w, seed, p, q);
    assert i < j ==> p.timestamp < q.timestamp;
    assert j < i ==> q.timestamp < p.timestamp;
  }

  lemma SameClient(w: Work, seed: nat, p: Job, q: Job)
    requires Numbered(w, seed) && JobOf(w, p) && JobOf(w, q) && |w.nonces| <= TWO_TO_32
    requires p.extraNonce1 == q.extraNonce1
    ensures p.client == q.client
  {
    if p.client <= q.client {
      DistinctNonce(seed, p.client, q.client);
    } else {
      DistinctNonce(seed, q.client, p.client);
    }
  }

  // ----- When two clients can meet

  /** A template that the server takes: its coinbase prefix is not empty, and its target is not zero. */
  ghost predicate Issuable(event: Event) {
    Usable(event) && (event.Issue? ==> event.template.coinbase1 != [] && BigEndian(event.template.target) > 0)
  }

  /** Two submissions for two jobs of one run of the server. */
  datatype Meeting = Meeting(
    seed: nat, events: seq<Event>, i: nat, j: nat,
    e: seq<Byte>, s: seq<Byte>, n: seq<Byte>, f: seq<Byte>, t: seq<Byte>, m: seq<Byte>)

  /** The jobs belong to different clients, and yet the submissions have one header. */
  ghost predicate Clash(x: Meeting, p: nat, q: nat) {
    var w := HandleAll(Fresh(x.seed), x.events);
    && (forall k :: 0 <= k < |x.events| ==> Issuable(x.events[k])) && |x.events| <= TWO_TO_63
    && |w.nonces| <= TWO_TO_32 && x.i < |w.jobs| && x.j < |w.jobs|
    && w.jobs[x.i].client != w.jobs[x.j].client
    && |w.jobs[x.i].template.coinbase1| == p && |w.jobs[x.j].template.coinbase1| == q
    && Collide(w.jobs[x.i], x.e, x.s, x.n, w.jobs[x.j], x.f, x.t, x.m)
  }

  ghost predicate ClientsCanClash(p: nat, q: nat) {
    exists x: Meeting :: Clash(x, p, q)
  }

  lemma NoClash(x: Meeting, p: nat)
    ensures !Clash(x, p, p)
  {
    if Clash(x, p, p) {
      WorkIsDisjoint(x.seed, x.events, x.i, x.j, x.e, x.s, x.n, x.f, x.t, x.m);
    }
  }

  /** With this seed the first two clients get the extranonces 0 1 1 1 and 1 1 1 1. */
  const CLASH_SEED: nat := 0x010100ff

  lemma ClashNonces()
    ensures LittleEndian((CLASH_SEED + 1) % TWO_TO_32, 4) == [0, 1, 1, 1]
    ensures LittleEndian((CLASH_SEED % TWO_TO_32 + 1) % TWO_TO_32, 4) == [0, 1, 1, 1]
    ensures LittleEndian(((CLASH_SEED + 1) % TWO_TO_32 + 1) % TWO_TO_32, 4) == [1, 1, 1, 1]
  {
    assert LittleEndian(0x01010100, 4) == [0] + LittleEndian(0x010101, 3);
    assert LittleEndian(0x01010101, 4) == [1] + LittleEndian(0x010101, 3);
    assert LittleEndian(0x010101, 3) == [1] + LittleEndian(0x0101, 2);
    assert LittleEndian(0x0101, 2) == [1] + LittleEndian(0x01, 1);
    assert LittleEndian(0x01, 1) == [1] + LittleEndian(0, 0);
  }

  /** A coinbase of q + 8 bytes, all one but for a zero at p. */
  function Marked(p: nat, q: nat): seq<Byte> {
    seq(q + 8, i => if i == p then 0 else 1)
  }

  /** A template that cuts this coinbase behind its first `at` bytes. */
  ghost function CutAt(p: nat, q: nat, at: nat): Template
    requires at <= q
  {
    var c := Marked(p, q);
    Template(Other([]), 0, c[..at], c[at + 8..], 4, 4, [], seq(32, _ => 255))
  }

  ghost function ClashEvents(p: nat, q: nat): seq<Event>
    requires p < q
  {
    var easy := seq(32, _ => 255);
    [Connect, Connect, Issue(0, CutAt(p, q, p), 1, easy), Issue(1, CutAt(p, q, q), 1, easy)]
  }

  /** The jobs that this run hands out. */
  ghost function ClashJob(p: nat, q: nat, client: nat): Job
    requires p < q
  {
    if client == 0 then Job(CutAt(p, q, p), 0, 1, [0, 1, 1, 1], seq(32, _ => 255))
    else Job(CutAt(p, q, q), 1, 1, [1, 1, 1, 1], seq(32, _ => 255))
  }

  lemma ClashRun(p: nat, q: nat)
    requires p < q
    ensures var w := HandleAll(Fresh(CLASH_SEED), ClashEvents(p, q));
      |w.nonces| == 2 && w.jobs == [ClashJob(p, q, 0), ClashJob(p, q, 1)]
  {
    var events := ClashEvents(p, q);
    var w0 := Fresh(CLASH_SEED);
    ClashNonces();
    assert events[..4] == events && events[..3][..2] == events[..2];
    assert events[..2][..1] == events[..1] && events[..1][..0] == [];
    var w1 := Handle(w0, Connect);
    assert HandleAll(w0, events[..1]) == w1;
    var w2 := Handle(w1, Connect);
    assert HandleAll(w0, events[..2]) == w2;
    assert w2.nonces == [[0, 1, 1, 1], [1, 1, 1, 1]] && w2.lastTimes == [0, 0] && w2.jobs == [];
    var w3 := Handle(w2, events[2]);
    assert HandleAll(w0, events[..3]) == w3;
    assert w3.jobs == [ClashJob(p, q, 0)] && w3.lastTimes == [1, 0];
    assert HandleAll(w0, events) == Handle(w3, events[3]);
  }

  lemma CutRejoins(p: nat, q: nat, client: nat)
    requires p < q && client <= 1
    ensures var at := if client == 0 then p else q;
      Coinbase(ClashJob(p, q, client), Marked(p, q)[at + 4..at + 8]) == Marked(p, q)
  {
    var at := if client == 0 then p else q;
    assert Marked(p, q)[at..at + 4] == ClashJob(p, q, client).extraNonce1;
  }

  /** Time one, in eight bytes. */
  lemma TimeOne()
    ensures FromLittleEndian([1] + seq(7, _ => 0 as Byte)) == 1
  {
    TimeZero(7);
    assert ([1] + seq(7, _ => 0 as Byte))[1..] == seq(7, _ => 0 as Byte);
  }

  lemma {:induction false} TimeZero(n: nat)
    ensures FromLittleEndian(seq(n, _ => 0 as Byte)) == 0
  {
    if n > 0 {
      TimeZero(n - 1);
      assert seq(n, _ => 0 as Byte)[1..] == seq(n - 1, _ => 0 as Byte);
    }
  }

  ghost function ClashMeeting(p: nat, q: nat): Meeting
    requires p < q
  {
    var c, time := Marked(p, q), [1] + seq(7, _ => 0 as Byte);
    Meeting(
      CLASH_SEED, ClashEvents(p, q), 0, 1,
      c[p + 4..p + 8], time, time, c[q + 4..q + 8], time, time)
  }

  /** With prefixes of different lengths, two clients can hash the same header. */
  lemma UnequalPrefixesClash(p: nat, q: nat)
    requires 0 < p < q
    ensures Clash(ClashMeeting(p, q), p, q)
    ensures Clash(Swapped(ClashMeeting(p, q)), q, p)
  {
    ClashRun(p, q);
    CutRejoins(p, q, 0);
    CutRejoins(p, q, 1);
    TimeOne();
  }

  ghost function Swapped(x: Meeting): Meeting {
    Meeting(x.seed, x.events, x.j, x.i, x.f, x.t, x.m, x.e, x.s, x.n)
  }

  /**
    Two clients of one server can be made to hash the same header exactly when
    the coinbase prefixes of their jobs differ in length.
   */
  lemma ClientsClashExactly(p: nat, q: nat)
    requires p > 0 && q > 0
    ensures ClientsCanClash(p, q) <==> p != q
  {
    if p == q {
      forall x: Meeting ensures !Clash(x, p, p) {
        NoClash(x, p);
      }
    } else if p < q {
      UnequalPrefixesClash(p, q);
    } else {
      UnequalPrefixesClash(q, p);
    }
  }
}
