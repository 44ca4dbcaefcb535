// Variable share difficulty of one connection (internal/stratum/server.go).
// Difficulties are exact reals, times are nanoseconds.

module Vardiff {
  import opened Arith
  import Targets

  datatype Time = Never | At(ns: int)

  datatype Config = Config(shareTarget: int, minimum: real, maximum: real)

  const SECOND: int := 1_000_000_000
  const INTERVAL: int := 90 * SECOND
  const FAST_WINDOW: int := 5 * SECOND
  const FAST_SHARES: nat := 3
  const MIN_FACTOR: real := 0.5
  const MAX_FACTOR: real := 2.0
  const FAST_FACTOR: real := 4.0
  const MIN_CHANGE: real := 0.15

  ghost predicate Sensible(cfg: Config) {
    0.0 < cfg.minimum <= cfg.maximum && SECOND <= cfg.shareTarget <= 300 * SECOND
  }

  /** The difficulty state of a client. */
  datatype Meter = Meter(
    difficulty: real, lastDiff: real,
    started: Time, windowDifficulty: real, shares: nat, lastShare: Time)

  function Abs(x: real): real {
    if x < 0.0 then -x else x
  }

  function Max(x: real, y: real): real {
    if x < y then y else x
  }

  function Min(x: real, y: real): real {
    if x < y then x else y
  }

  predicate Same(a: real, b: real) {
    a == b || Abs(a - b) <= Max(Abs(a), Abs(b)) * 0.000000001
  }

  function Opened(m: Meter, now: int, difficulty: real): Meter {
    m.(started := At(now), windowDifficulty := difficulty, shares := 0)
  }

  function Closed(m: Meter): Meter {
    m.(started := Never, windowDifficulty := 0.0, shares := 0)
  }

  predicate IsFast(shares: nat, elapsed: int) {
    shares >= FAST_SHARES && 0 < elapsed <= FAST_WINDOW
  }

  /** Shares seen over shares expected. */
  function Observed(shares: nat, target: int, elapsed: int): real
    requires elapsed > 0
  {
    shares as real * target as real / elapsed as real
  }

  /** The factor of one adjustment, within its limits. */
  function Factor(cfg: Config, shares: nat, elapsed: int): real
    requires elapsed > 0
  {
    var most := if IsFast(shares, elapsed) then FAST_FACTOR else MAX_FACTOR;
    Max(MIN_FACTOR, Min(most, Observed(shares, cfg.shareTarget, elapsed)))
  }

  function Bounded(cfg: Config, difficulty: real): real {
    Max(cfg.minimum, Min(cfg.maximum, difficulty))
  }

  /** Too small a change to bother the client with. */
  predicate Slight(next: real, previous: real)
    requires previous > 0.0
  {
    Abs(next / previous - 1.0) < MIN_CHANGE
  }

  function Scaled(difficulty: real, factor: real): real {
    difficulty * factor
  }

  /** A share counted in the open window. */
  function Counted(cfg: Config, m: Meter, now: int): (Meter, bool)
    requires m.started.At? && m.difficulty > 0.0
  {
    var shares, elapsed := m.shares + 1, now - m.started.ns;
    if elapsed < INTERVAL && !IsFast(shares, elapsed) then (m.(shares := shares), false)
    else
      var next := Bounded(cfg, Scaled(m.windowDifficulty, Factor(cfg, shares, elapsed)));
      if Slight(next, m.difficulty) then (Opened(m, now, m.difficulty), false)
      else (Opened(m, now, next).(difficulty := next), true)
  }

  function Accepted(cfg: Config, m0: Meter, now: int, share: real): (Meter, bool)
    requires m0.difficulty > 0.0
  {
    var m := m0.(lastShare := At(now));
    if !Same(share, m.lastDiff) then (m, false)
    else if m.started.Never? || !Same(m.windowDifficulty, share) then
      (Opened(m, now, share).(difficulty := share), false)
    else Counted(cfg, m, now)
  }

  function Lowered(cfg: Config, m: Meter, now: int): Meter {
    if m.lastShare.Never? || now - m.lastShare.ns < 4 * cfg.shareTarget || m.difficulty <= cfg.minimum then m
    else Closed(m.(difficulty := Max(cfg.minimum, m.difficulty / 2.0), lastShare := At(now)))
  }

  function Suggested(m: Meter, difficulty: real): Meter {
    Closed(m.(difficulty := difficulty))
  }

  function LoggedIn(m: Meter, difficulty: real): Meter {
    Suggested(m, difficulty).(lastShare := Never)
  }

  class Client {
    const cfg: Config
    var difficulty: real
    var lastDiff: real
    var vardiffStarted: Time
    var vardiffDifficulty: real
    var vardiffShares: nat
    var lastShare: Time

    ghost function State(): Meter
      reads this
    {
      Meter(difficulty, lastDiff, vardiffStarted, vardiffDifficulty, vardiffShares, lastShare)
    }

    constructor (cfg: Config, initial: real)
      ensures this.cfg == cfg && State() == Meter(initial, 0.0, Never, 0.0, 0, Never)
    {
      this.cfg := cfg;
      difficulty, lastDiff, lastShare := initial, 0.0, Never;
      vardiffStarted, vardiffDifficulty, vardiffShares := Never, 0.0, 0;
    }

    method ResetVardiff(now: int, to: real)
      modifies this`vardiffStarted, this`vardiffDifficulty, this`vardiffShares
      ensures State() == Opened(old(State()), now, to)
    {
      vardiffStarted, vardiffDifficulty, vardiffShares := At(now), to, 0;
    }

    /** Books an accepted share; true when the difficulty was changed and new work must go out. */
    method AcceptedAt(now: int, shareDifficulty: real) returns (retarget: bool)
      requires difficulty > 0.0
      modifies this
      ensures (State(), retarget) == Accepted(cfg, old(State()), now, shareDifficulty)
    {
      lastShare := At(now);
      if !Same(shareDifficulty, lastDiff) {
        return false;
      }
      if vardiffStarted.Never? || !Same(vardiffDifficulty, shareDifficulty) {
        difficulty := shareDifficulty;
        ResetVardiff(now, shareDifficulty);
        return false;
      }
      vardiffShares := vardiffShares + 1;
      var elapsed := now - vardiffStarted.ns;
      var fast := vardiffShares >= FAST_SHARES && elapsed > 0 && elapsed <= FAST_WINDOW;
      if elapsed < INTERVAL && !fast {
        return false;
      }
      var factor := Observed(vardiffShares, cfg.shareTarget, elapsed);
      var maximum := MAX_FACTOR;
      if fast {
        maximum := FAST_FACTOR;
      }
      factor := Max(MIN_FACTOR, Min(maximum, factor));
      var next := Max(cfg.minimum, Min(cfg.maximum, Scaled(vardiffDifficulty, factor)));
      var previous := difficulty;
      ResetVardiff(now, next);
      if Slight(next, previous) {
        vardiffDifficulty := previous;
        return false;
      }
      difficulty := next;
      retarget := true;
    }

    /** Halves the difficulty of a client that has sent nothing for four share targets. */
    method LowerIdleDifficulty(now: int)
      modifies this
      ensures State() == Lowered(cfg, old(State()), now)
    {
      if lastShare.Never? || now - lastShare.ns < 4 * cfg.shareTarget || difficulty <= cfg.minimum {
        return;
      }
      difficulty := Max(cfg.minimum, difficulty / 2.0);
      lastShare := At(now);
      vardiffStarted, vardiffDifficulty, vardiffShares := Never, 0.0, 0;
    }

    /** The client asks for a difficulty; one outside the limits is refused. */
    method SuggestDifficulty(suggested: real) returns (ok: bool)
      modifies this
      ensures ok == Within(cfg, suggested)
      ensures State() == if ok then Suggested(old(State()), suggested) else old(State())
      ensures ok ==> difficulty == suggested && vardiffStarted.Never? && lastShare == old(lastShare)
    {
      if suggested < cfg.minimum || suggested > cfg.maximum {
        return false;
      }
      difficulty := suggested;
      vardiffStarted, vardiffDifficulty, vardiffShares := Never, 0.0, 0;
      ok := true;
    }

    /** The client logs in, with the difficulty its password asks for or the initial one. */
    method Login(initial: real, asked: bool, wanted: real) returns (ok: bool)
      modifies this
      ensures ok == (asked ==> Within(cfg, wanted))
      ensures State() == if ok then LoggedIn(old(State()), if asked then wanted else initial) else old(State())
      ensures ok ==>
        difficulty == (if asked then wanted else initial) && vardiffStarted.Never? && lastShare.Never?
    {
      var chosen := initial;
      if asked {
        if wanted < cfg.minimum || wanted > cfg.maximum {
          return false;
        }
        chosen := wanted;
      }
      difficulty := chosen;
      vardiffStarted, vardiffDifficulty, vardiffShares, lastShare := Never, 0.0, 0, Never;
      ok := true;
    }
  }

  // ----- Runs of one connection

  /** The meter together with the difficulties of all jobs issued so far. */
  datatype Line = Line(meter: Meter, jobs: seq<real>)

  datatype Event =
    | Publish(network: real)           // a job is built for a template of this difficulty
    | Send(job: nat)                   // it is announced to the client
    | Share(now: int, job: nat)        // a share for it is accepted
    | Idle(now: int)
    | Suggest(difficulty: real)        // the client asks for a difficulty
    | Enter(difficulty: real)          // the client logs in

  function Next(cfg: Config, s: Line, e: Event): Line
    requires s.meter.difficulty > 0.0
  {
    match e
    case Publish(network) => s.(jobs := s.jobs + [Targets.JobDifficulty(s.meter.difficulty, network)])
    case Send(job) => if job < |s.jobs| then s.(meter := s.meter.(lastDiff := s.jobs[job])) else s
    case Share(now, job) => if job < |s.jobs| then s.(meter := Accepted(cfg, s.meter, now, s.jobs[job]).0) else s
    case Idle(now) => s.(meter := Lowered(cfg, s.meter, now))
    case Suggest(difficulty) => s.(meter := Suggested(s.meter, difficulty))
    case Enter(difficulty) => s.(meter := LoggedIn(s.meter, difficulty))
  }

  ghost predicate Positive(e: Event) {
    (e.Publish? ==> e.network > 0.0) && (e.Suggest? || e.Enter? ==> e.difficulty > 0.0)
  }

  /** While a window is open it measures the difficulty in force. */
  ghost predicate WindowSound(s: Line) {
    && s.meter.difficulty > 0.0 && (forall i :: 0 <= i < |s.jobs| ==> s.jobs[i] > 0.0)
    && (s.meter.started.At? ==> s.meter.windowDifficulty == s.meter.difficulty)
  }

  lemma NextWindowSound(cfg: Config, s: Line, e: Event)
    requires Sensible(cfg) && WindowSound(s) && Positive(e)
    ensures WindowSound(Next(cfg, s, e))
  {
  }

  function Run(cfg: Config, initial: real, events: seq<Event>): (s: Line)
    requires initial > 0.0 && Sensible(cfg) && forall i :: 0 <= i < |events| ==> Positive(events[i])
    ensures WindowSound(s)
  {
    if events == [] then Line(Meter(initial, 0.0, Never, 0.0, 0, Never), [])
    else
      var s := Run(cfg, initial, events[..|events| - 1]);
      NextWindowSound(cfg, s, events[|events| - 1]);
      Next(cfg, s, events[|events| - 1])
  }

  // ----- Bounds

  predicate Within(cfg: Config, x: real) {
    cfg.minimum <= x <= cfg.maximum
  }

  /** A job stays within the limits exactly when the network difficulty reaches the minimum. */
  lemma JobWithin(cfg: Config, difficulty: real, network: real)
    requires Within(cfg, difficulty)
    ensures Within(cfg, Targets.JobDifficulty(difficulty, network)) <==> network >= cfg.minimum
  {
  }

  ghost predicate AllWithin(cfg: Config, s: Line) {
    Within(cfg, s.meter.difficulty) && forall i :: 0 <= i < |s.jobs| ==> Within(cfg, s.jobs[i])
  }

  ghost predicate Allowed(cfg: Config, e: Event) {
    (e.Publish? ==> e.network >= cfg.minimum) && (e.Suggest? || e.Enter? ==> Within(cfg, e.difficulty))
  }

  lemma NextWithin(cfg: Config, s: Line, e: Event)
    requires Sensible(cfg) && WindowSound(s) && AllWithin(cfg, s) && Allowed(cfg, e)
    ensures AllWithin(cfg, Next(cfg, s, e))
  {
    if e.Publish? {
      JobWithin(cfg, s.meter.difficulty, e.network);
    }
  }

  /** With every network difficulty at least the minimum, difficulty and jobs never leave the configured range. */
  lemma {:induction false} RunWithin(cfg: Config, initial: real, events: seq<Event>)
    requires Sensible(cfg) && Within(cfg, initial)
    requires forall i :: 0 <= i < |events| ==> Allowed(cfg, events[i]) && Positive(events[i])
    ensures AllWithin(cfg, Run(cfg, initial, events))
  {
    if events != [] {
      RunWithin(cfg, initial, events[..|events| - 1]);
      NextWithin(cfg, Run(cfg, initial, events[..|events| - 1]), events[|events| - 1]);
    }
  }

  /** Otherwise one announced job and one accepted share carry the difficulty below the minimum. */
  lemma LowNetworkEscapes(cfg: Config, initial: real, network: real)
    requires Sensible(cfg) && Within(cfg, initial) && 0.0 < network < cfg.minimum
    ensures Run(cfg, initial, [Publish(network), Send(0), Share(0, 0)]).meter.difficulty == network < cfg.minimum
  {
    var events := [Publish(network), Send(0), Share(0, 0)];
    assert events[..2] == [Publish(network), Send(0)];
    assert events[..2][..1] == [Publish(network)] && events[..2][..1][..0] == [];
    assert Run(cfg, initial, []) == Line(Meter(initial, 0.0, Never, 0.0, 0, Never), []);
    assert Run(cfg, initial, events[..2][..1]) == Next(cfg, Run(cfg, initial, []), Publish(network));
    assert Run(cfg, initial, events[..2]) == Next(cfg, Run(cfg, initial, events[..2][..1]), Send(0));
    assert Run(cfg, initial, events) == Next(cfg, Run(cfg, initial, events[..2]), Share(0, 0));
  }

  // ----- One adjustment

  lemma RatioBounds(previous: real, next: real, low: real, high: real)
    requires previous > 0.0 && low * previous <= next <= high * previous
    ensures low <= next / previous <= high
  {
    var ratio := next / previous;
    assert ratio * previous == next;
    if ratio < low {
      RealStrict(ratio, low, previous);
    }
    if ratio > high {
      RealStrict(high, ratio, previous);
    }
  }

  lemma ScaleBetween(previous: real, factor: real, low: real, high: real)
    requires previous > 0.0 && low <= factor <= high
    ensures low * previous <= previous * factor <= high * previous
  {
    RealMonotone(low, factor, previous);
    RealMonotone(factor, high, previous);
  }

  /** Clamping a scaled value to a range that holds the original keeps it between the two. */
  lemma BoundedBetween(cfg: Config, previous: real, scaled: real, low: real, high: real)
    requires Within(cfg, previous) && previous > 0.0 && low <= 1.0 <= high
    requires low * previous <= scaled <= high * previous
    ensures low * previous <= Bounded(cfg, scaled) <= high * previous
  {
    RealMonotone(low, 1.0, previous);
    RealMonotone(1.0, high, previous);
  }

  /** One adjustment of a difficulty within the limits stays between half and the allowed maximum of it. */
  lemma AdjustmentRatio(cfg: Config, previous: real, factor: real, high: real)
    requires Within(cfg, previous) && previous > 0.0 && 0.5 <= factor <= high && 1.0 <= high
    ensures 0.5 <= Bounded(cfg, Scaled(previous, factor)) / previous <= high
  {
    ScaleBetween(previous, factor, 0.5, high);
    BoundedBetween(cfg, previous, Scaled(previous, factor), 0.5, high);
    RatioBounds(previous, Bounded(cfg, Scaled(previous, factor)), 0.5, high);
  }

  lemma FactorRange(cfg: Config, shares: nat, elapsed: int)
    requires elapsed > 0
    ensures 0.5 <= Factor(cfg, shares, elapsed) <= if IsFast(shares, elapsed) then 4.0 else 2.0
  {
  }

  /** A retarget changes the difficulty by a factor of 1/2 to 2, or up to 4 in a fast window, and by at least 15%. */
  lemma RetargetRatio(cfg: Config, m: Meter, now: int, share: real)
    requires m.difficulty > 0.0 && Within(cfg, m.difficulty) && (m.started.At? ==> m.windowDifficulty == m.difficulty)
    requires Accepted(cfg, m, now, share).1
    ensures m.started.At?
    ensures var ratio := Accepted(cfg, m, now, share).0.difficulty / m.difficulty;
      && 0.5 <= ratio <= (if IsFast(m.shares + 1, now - m.started.ns) then 4.0 else 2.0)
      && Abs(ratio - 1.0) >= 0.15
  {
    var shares, elapsed := m.shares + 1, now - m.started.ns;
    FactorRange(cfg, shares, elapsed);
    AdjustmentRatio(cfg, m.difficulty, Factor(cfg, shares, elapsed), if IsFast(shares, elapsed) then 4.0 else 2.0);
  }

  /** So every retarget of every run within the limits is bounded that way. */
  lemma {:induction false} EveryRetarget(cfg: Config, initial: real, events: seq<Event>, now: int, job: nat)
    requires Sensible(cfg) && Within(cfg, initial)
    requires forall i :: 0 <= i < |events| ==> Allowed(cfg, events[i]) && Positive(events[i])
    requires job < |Run(cfg, initial, events).jobs|
    requires var s := Run(cfg, initial, events); Accepted(cfg, s.meter, now, s.jobs[job]).1
    ensures var s := Run(cfg, initial, events);
      var ratio := Accepted(cfg, s.meter, now, s.jobs[job]).0.difficulty / s.meter.difficulty;
      var fast := s.meter.started.At? && IsFast(s.meter.shares + 1, now - s.meter.started.ns);
      && 0.5 <= ratio <= (if fast then 4.0 else 2.0)
      && Abs(ratio - 1.0) >= 0.15
  {
    RunWithin(cfg, initial, events);
    var s := Run(cfg, initial, events);
    RetargetRatio(cfg, s.meter, now, s.jobs[job]);
  }

  // ----- Following the rate

  /** A window that measures the difficulty in force, and a share that counts in it. */
  ghost predicate Measuring(cfg: Config, m: Meter, share: real) {
    && m.started.At? && m.difficulty > 0.0 && m.windowDifficulty == m.difficulty && Within(cfg, m.difficulty)
    && Same(share, m.lastDiff) && Same(m.windowDifficulty, share)
  }

  /**
    The difficulty after a window in which shares worth `seen` target intervals
    came in `time`: in proportion to that rate, unless a limit cuts it short.
   */
  ghost predicate Proportional(cfg: Config, before: real, after: real, seen: real, time: real, most: real) {
    || after * time == before * seen
    || after == cfg.minimum || after == cfg.maximum
    || (2.0 * after == before && 2.0 * seen <= time)
    || (after == most * before && seen >= most * time)
  }

  /** Left alone within 15% of the target rate, raised above it and lowered below it as far as the limits allow. */
  ghost predicate Follows(cfg: Config, before: real, after: real, seen: real, time: real, most: real) {
    && (0.85 * time < seen < 1.15 * time ==> after == before)
    && (after > before ==> seen >= 1.15 * time) && (after < before ==> seen <= 0.85 * time)
    && (seen >= 1.15 * time && 1.15 * before <= cfg.maximum ==> after > before)
    && (seen <= 0.85 * time && 0.85 * before >= cfg.minimum ==> after < before)
    && (after != before ==> Proportional(cfg, before, after, seen, time, most))
  }

  /** A factor within its limits. */
  function Limited(observed: real, most: real): real {
    Max(MIN_FACTOR, Min(most, observed))
  }

  function Settled(cfg: Config, before: real, factor: real): real
    requires before > 0.0
  {
    var next := Bounded(cfg, Scaled(before, factor));
    if Slight(next, before) then before else next
  }

  /** How a scaled difficulty compares with a multiple of the present one. */
  lemma ScaledAgainst(before: real, factor: real, bound: real)
    requires before > 0.0
    ensures Scaled(before, factor) < bound * before <==> factor < bound
    ensures Scaled(before, factor) > bound * before <==> factor > bound
  {
    if factor < bound {
      RealStrict(factor, bound, before);
    } else if factor > bound {
      RealStrict(bound, factor, before);
    }
  }

  lemma RateAgainst(observed: real, seen: real, time: real, bound: real)
    requires time > 0.0 && observed * time == seen
    ensures seen < bound * time <==> observed < bound
    ensures seen > bound * time <==> observed > bound
  {
    if observed < bound {
      RealStrict(observed, bound, time);
    } else if observed > bound {
      RealStrict(bound, observed, time);
    }
  }

  lemma SlightExactly(next: real, previous: real)
    requires previous > 0.0
    ensures Slight(next, previous) <==> 0.85 * previous < next < 1.15 * previous
  {
    var ratio := next / previous;
    assert ratio * previous == next;
    RateAgainst(ratio, next, previous, 0.85);
    RateAgainst(ratio, next, previous, 1.15);
  }

  lemma SettledDirection(cfg: Config, before: real, factor: real)
    requires 0.0 < before && Within(cfg, before)
    ensures 0.85 < factor < 1.15 ==> Settled(cfg, before, factor) == before
    ensures Settled(cfg, before, factor) > before ==> factor >= 1.15
    ensures Settled(cfg, before, factor) < before ==> factor <= 0.85
    ensures factor >= 1.15 && 1.15 * before <= cfg.maximum ==> Settled(cfg, before, factor) > before
    ensures factor <= 0.85 && 0.85 * before >= cfg.minimum ==> Settled(cfg, before, factor) < before
    ensures Settled(cfg, before, factor) in {before, cfg.minimum, cfg.maximum, Scaled(before, factor)}
  {
    SlightExactly(Bounded(cfg, Scaled(before, factor)), before);
    ScaledAgainst(before, factor, 0.85);
    ScaledAgainst(before, factor, 1.15);
  }

  lemma ScaledRate(before: real, observed: real, seen: real, time: real)
    requires observed * time == seen
    ensures Scaled(before, observed) * time == before * seen
  {
    assert Scaled(before, observed) * time == before * (observed * time);
  }

  lemma LimitedRate(observed: real, most: real)
    requires 2.0 <= most
    ensures 0.5 < observed < most ==> Limited(observed, most) == observed
    ensures Limited(observed, most) >= 1.15 <==> observed >= 1.15
    ensures Limited(observed, most) <= 0.85 <==> observed <= 0.85
    ensures observed <= 0.5 ==> Limited(observed, most) == 0.5
    ensures observed >= most ==> Limited(observed, most) == most
  {
  }

  lemma SettledProportional(
      cfg: Config, before: real, observed: real, seen: real, time: real, most: real)
    requires 0.0 < before && Within(cfg, before) && time > 0.0 && observed * time == seen && 2.0 <= most
    ensures var after := Settled(cfg, before, Limited(observed, most));
      after == before || Proportional(cfg, before, after, seen, time, most)
  {
    LimitedRate(observed, most);
    SettledDirection(cfg, before, Limited(observed, most));
    ScaledRate(before, observed, seen, time);
    RateAgainst(observed, seen, time, 0.5);
    RateAgainst(observed, seen, time, most);
  }

  lemma SettledFollows(cfg: Config, before: real, observed: real, seen: real, time: real, most: real)
    requires 0.0 < before && Within(cfg, before) && time > 0.0 && observed * time == seen && 2.0 <= most
    ensures Follows(cfg, before, Settled(cfg, before, Limited(observed, most)), seen, time, most)
  {
    LimitedRate(observed, most);
    SettledDirection(cfg, before, Limited(observed, most));
    SettledProportional(cfg, before, observed, seen, time, most);
    RateAgainst(observed, seen, time, 0.85);
    RateAgainst(observed, seen, time, 1.15);
  }

  lemma ObservedRate(shares: nat, target: int, elapsed: int)
    requires elapsed > 0
    ensures Observed(shares, target, elapsed) * elapsed as real == shares as real * target as real
  {
  }

  /** Whether the window ends with this share: after 90 seconds, or with three shares within five. */
  predicate Evaluated(shares: nat, elapsed: int) {
    elapsed >= 90_000_000_000 || (shares >= 3 && 0 < elapsed <= 5_000_000_000)
  }

  /** The most that one window can raise the difficulty by. */
  function MostFactor(shares: nat, elapsed: int): real {
    if shares >= 3 && elapsed <= 5_000_000_000 then 4.0 else 2.0
  }

  /** A share that ends its window. */
  lemma WindowEnds(cfg: Config, m: Meter, now: int, share: real)
    requires Sensible(cfg) && Measuring(cfg, m, share) && Evaluated(m.shares + 1, now - m.started.ns)
    ensures var shares, elapsed := m.shares + 1, now - m.started.ns;
      var after := Settled(
        cfg, m.difficulty, Limited(Observed(shares, cfg.shareTarget, elapsed), MostFactor(shares, elapsed)));
      && Accepted(cfg, m, now, share).1 == (after != m.difficulty)
      && Accepted(cfg, m, now, share).0 == Opened(m.(lastShare := At(now)), now, after).(difficulty := after)
  {
    var shares, elapsed := m.shares + 1, now - m.started.ns;
    var factor := Limited(Observed(shares, cfg.shareTarget, elapsed), MostFactor(shares, elapsed));
    assert Factor(cfg, shares, elapsed) == factor;
    SlightExactly(Bounded(cfg, Scaled(m.difficulty, factor)), m.difficulty);
  }

  /** Any other share is only counted. */
  lemma WindowContinues(cfg: Config, m: Meter, now: int, share: real)
    requires Sensible(cfg) && Measuring(cfg, m, share) && !Evaluated(m.shares + 1, now - m.started.ns)
    ensures Accepted(cfg, m, now, share) == (m.(lastShare := At(now), shares := m.shares + 1), false)
  {
  }

  ghost predicate FollowsWindow(cfg: Config, before: real, after: real, shares: nat, elapsed: int) {
    Follows(cfg, before, after, shares as real * cfg.shareTarget as real, elapsed as real, MostFactor(shares, elapsed))
  }

  lemma WindowFollows(cfg: Config, before: real, shares: nat, elapsed: int, after: real)
    requires 0.0 < before && Within(cfg, before) && elapsed > 0
    requires after ==
      Settled(cfg, before, Limited(Observed(shares, cfg.shareTarget, elapsed), MostFactor(shares, elapsed)))
    ensures FollowsWindow(cfg, before, after, shares, elapsed)
  {
    ObservedRate(shares, cfg.shareTarget, elapsed);
    SettledFollows(
      cfg, before, Observed(shares, cfg.shareTarget, elapsed),
      shares as real * cfg.shareTarget as real, elapsed as real, MostFactor(shares, elapsed));
  }

  /**
    A share that ends its window makes the difficulty follow the rate of the
    window, in a step of at most 4 for a fast window and 2 for any other. Before
    that it is only counted.
   */
  ghost predicate RateFollowed(cfg: Config, m: Meter, now: int, after: Meter)
    requires m.started.At?
  {
    var shares, elapsed := m.shares + 1, now - m.started.ns;
    if Evaluated(shares, elapsed) then
      && after.started == At(now) && after.shares == 0
      && FollowsWindow(cfg, m.difficulty, after.difficulty, shares, elapsed)
    else after == m.(lastShare := At(now), shares := shares)
  }

  lemma RateFollowedAt(cfg: Config, m: Meter, now: int, after: Meter)
    requires m.started.At? && m.difficulty > 0.0 && Within(cfg, m.difficulty)
    requires Evaluated(m.shares + 1, now - m.started.ns) && after.started == At(now) && after.shares == 0
    requires after.difficulty == Settled(
      cfg, m.difficulty,
      Limited(Observed(m.shares + 1, cfg.shareTarget, now - m.started.ns),
        MostFactor(m.shares + 1, now - m.started.ns)))
    ensures RateFollowed(cfg, m, now, after)
  {
    WindowFollows(cfg, m.difficulty, m.shares + 1, now - m.started.ns, after.difficulty);
  }

  lemma DifficultyFollowsRate(cfg: Config, m: Meter, now: int, share: real)
    requires Sensible(cfg) && Measuring(cfg, m, share)
    ensures RateFollowed(cfg, m, now, Accepted(cfg, m, now, share).0)
  {
    if Evaluated(m.shares + 1, now - m.started.ns) {
      WindowEnds(cfg, m, now, share);
      RateFollowedAt(cfg, m, now, Accepted(cfg, m, now, share).0);
    } else {
      WindowContinues(cfg, m, now, share);
    }
  }

  /** A share for the difficulty last announced to the client, in a window that measures it. */
  ghost predicate Counts(s: Line, job: nat) {
    && job < |s.jobs| && s.meter.started.At?
    && Same(s.jobs[job], s.meter.lastDiff) && Same(s.meter.windowDifficulty, s.jobs[job])
  }

  lemma RunMeasures(cfg: Config, initial: real, events: seq<Event>, job: nat)
    requires Sensible(cfg) && Within(cfg, initial)
    requires forall i :: 0 <= i < |events| ==> Allowed(cfg, events[i]) && Positive(events[i])
    requires Counts(Run(cfg, initial, events), job)
    ensures var s := Run(cfg, initial, events); Measuring(cfg, s.meter, s.jobs[job])
  {
    RunWithin(cfg, initial, events);
  }

  /** In every run within the limits that is so of every share that counts. */
  lemma {:induction false} EveryWindowFollowsRate(cfg: Config, initial: real, events: seq<Event>, now: int, job: nat)
    requires Sensible(cfg) && Within(cfg, initial)
    requires forall i :: 0 <= i < |events| ==> Allowed(cfg, events[i]) && Positive(events[i])
    requires Counts(Run(cfg, initial, events), job)
    ensures var s := Run(cfg, initial, events); RateFollowed(cfg, s.meter, now, Next(cfg, s, Share(now, job)).meter)
  {
    RunMeasures(cfg, initial, events, job);
    var s := Run(cfg, initial, events);
    DifficultyFollowsRate(cfg, s.meter, now, s.jobs[job]);
  }

  // ----- Falling silent

  /** d halved k times. */
  ghost function Halved(d: real, k: nat): real {
    if k == 0 then d else Halved(d, k - 1) / 2.0
  }

  /** The checks of a client that sends nothing more. */
  function LoweredAll(cfg: Config, m: Meter, checks: seq<int>): Meter {
    if checks == [] then m else Lowered(cfg, LoweredAll(cfg, m, checks[..|checks| - 1]), checks[|checks| - 1])
  }

  /** Checks of which each comes four share targets or more after the last share and the check before. */
  ghost predicate Apart(cfg: Config, since: int, checks: seq<int>) {
    && (forall i :: 0 <= i < |checks| ==> checks[i] - since >= 4 * cfg.shareTarget)
    && (forall i, j :: 0 <= i < j < |checks| ==> checks[j] - checks[i] >= 4 * cfg.shareTarget)
  }

  /** The difficulty of a silent client is halved at each such check until it reaches the minimum. */
  lemma {:induction false} SilentClientIsHalved(cfg: Config, m: Meter, checks: seq<int>)
    requires Sensible(cfg) && m.lastShare.At? && Apart(cfg, m.lastShare.ns, checks) && m.difficulty >= cfg.minimum
    ensures var t := LoweredAll(cfg, m, checks);
      && t.difficulty == Max(cfg.minimum, Halved(m.difficulty, |checks|))
      && t.lastShare.At? && (t.lastShare == m.lastShare || exists i :: 0 <= i < |checks| && t.lastShare.ns == checks[i])
  {
    if checks != [] {
      var before, check := checks[..|checks| - 1], checks[|checks| - 1];
      SilentClientIsHalved(cfg, m, before);
      var t := LoweredAll(cfg, m, before);
      assert check - t.lastShare.ns >= 4 * cfg.shareTarget;
      if t.lastShare != m.lastShare && t.difficulty <= cfg.minimum {
        var i :| 0 <= i < |before| && t.lastShare.ns == before[i];
        assert checks[i] == before[i];
      }
    }
  }

  /** A client that has sent a share within four share targets, or none at all, is left as it is. */
  lemma BusyClientIsKept(cfg: Config, m: Meter, now: int)
    requires m.lastShare.At? ==> now - m.lastShare.ns < 4 * cfg.shareTarget
    ensures Lowered(cfg, m, now) == m
  {
  }

  // ----- Growth

  /** base doubled e times. */
  ghost function Doubled(base: real, e: nat): real {
    if e == 0 then base else 2.0 * Doubled(base, e - 1)
  }

  lemma {:induction false} DoubledMonotone(base: real, d: nat, e: nat)
    requires base > 0.0 && d <= e
    ensures base <= Doubled(base, d) <= Doubled(base, e)
  {
    if d < e {
      DoubledMonotone(base, d, e - 1);
    } else if d > 0 {
      DoubledMonotone(base, d - 1, e - 1);
    }
  }

  /** base multiplied by four k times. */
  ghost function Quadrupled(base: real, k: nat): real {
    if k == 0 then base else 4.0 * Quadrupled(base, k - 1)
  }

  lemma {:induction false} DoubledTwice(base: real, k: nat)
    ensures Doubled(base, 2 * k) == Quadrupled(base, k)
  {
    if k > 0 {
      DoubledTwice(base, k - 1);
      assert Doubled(base, 2 * k) == 2.0 * Doubled(base, 2 * k - 1) == 4.0 * Doubled(base, 2 * (k - 1));
    }
  }

  function AcceptedShares(events: seq<Event>): nat {
    if events == [] then 0 else AcceptedShares(events[..|events| - 1]) + if events[|events| - 1].Share? then 1 else 0
  }

  ghost predicate AtMost(s: Line, limit: real) {
    s.meter.difficulty <= limit && forall i :: 0 <= i < |s.jobs| ==> s.jobs[i] <= limit
  }

  /**
    After n accepted shares there have been e doublings, a raise by up to 4
    counting twice. Each doubling used up at least 3/2 counted shares, and
    the share that opened the window was not counted.
   */
  ghost predicate Grown(s: Line, base: real, e: nat, n: nat) {
    && AtMost(s, Doubled(base, e))
    && (if s.meter.started.At? then n >= 1 && 3 * e + 2 * s.meter.shares <= 2 * (n - 1)
        else e == 0 || 3 * e <= 2 * (n - 1))
  }

  /** Below 103.5 seconds a single counted share cannot raise the difficulty. */
  lemma OneShareNeverRaises(cfg: Config, elapsed: int)
    requires Sensible(cfg) && 10 * cfg.shareTarget < 1035 * SECOND && elapsed >= INTERVAL
    ensures Factor(cfg, 1, elapsed) < 1.15
  {
    var t, x := cfg.shareTarget as real, elapsed as real;
    QuotientBelow(t, x, 1.15);
    assert Observed(1, cfg.shareTarget, elapsed) == t / x;
  }

  lemma QuotientBelow(t: real, x: real, c: real)
    requires x > 0.0 && t < c * x
    ensures t / x < c
  {
    var q := t / x;
    assert q * x == t;
    if q >= c {
      RealMonotone(c, q, x);
    }
  }

  /** A raise beyond the present limit takes two counted shares, or three in a fast window. */
  lemma RaiseCost(cfg: Config, previous: real, shares: nat, elapsed: int, factor: real, next: real)
    requires Sensible(cfg) && 10 * cfg.shareTarget < 1035 * SECOND
    requires (IsFast(shares, elapsed) || elapsed >= INTERVAL) && shares >= 1 && factor == Factor(cfg, shares, elapsed)
    requires 0.0 < previous < next <= Scaled(previous, factor) && !Slight(next, previous)
    ensures shares >= if IsFast(shares, elapsed) then 3 else 2
  {
    RaiseNeeds(previous, next, factor);
    if !IsFast(shares, elapsed) && shares == 1 {
      OneShareNeverRaises(cfg, elapsed);
    }
  }

  /** The limit after one counted share, by whether and how it raised the difficulty. */
  lemma CountedLimit(cfg: Config, m: Meter, now: int, base: real, e: nat) returns (f: nat)
    requires Sensible(cfg) && 10 * cfg.shareTarget < 1035 * SECOND && base >= cfg.minimum
    requires m.started.At? && m.windowDifficulty == m.difficulty && 0.0 < m.difficulty <= Doubled(base, e)
    ensures var next := Counted(cfg, m, now);
      && f >= e && next.0.difficulty <= Doubled(base, f)
      && (f > e ==> next.1 && 2 * (m.shares + 1) >= 3 * (f - e))
  {
    var shares, elapsed := m.shares + 1, now - m.started.ns;
    var next := Counted(cfg, m, now);
    f := e;
    if next.1 && next.0.difficulty > Doubled(base, e) {
      var factor := Factor(cfg, shares, elapsed);
      f := if IsFast(shares, elapsed) then e + 2 else e + 1;
      DoubledMonotone(base, e, f);
      FactorRange(cfg, shares, elapsed);
      BoundedIsScaled(cfg, m.difficulty, factor, next.0.difficulty, base);
      RaiseCost(cfg, m.difficulty, shares, elapsed, factor, next.0.difficulty);
      RaiseFits(base, e, f, m.difficulty, next.0.difficulty, factor);
    }
  }

  /** A bounded value above the minimum is at most the scaled one. */
  lemma BoundedIsScaled(cfg: Config, previous: real, factor: real, next: real, base: real)
    requires next == Bounded(cfg, Scaled(previous, factor)) && next > base >= cfg.minimum
    ensures next <= Scaled(previous, factor)
  {
  }

  /** What one counted share does to the bound. */
  lemma CountedGrows(cfg: Config, s: Line, base: real, e: nat, n: nat, now: int) returns (f: nat)
    requires Sensible(cfg) && 10 * cfg.shareTarget < 1035 * SECOND
    requires WindowSound(s) && s.meter.started.At? && Grown(s, base, e, n) && base >= cfg.minimum
    ensures Grown(s.(meter := Counted(cfg, s.meter.(lastShare := At(now)), now).0), base, f, n + 1)
  {
    f := CountedLimit(cfg, s.meter.(lastShare := At(now)), now, base, e);
    DoubledMonotone(base, e, f);
    CountedWindow(cfg, s.meter.(lastShare := At(now)), now);
  }

  lemma CountedWindow(cfg: Config, m: Meter, now: int)
    requires m.started.At? && m.difficulty > 0.0
    ensures var next := Counted(cfg, m, now).0;
      next.started.At? && (next.shares == 0 || next.shares == m.shares + 1)
    ensures Counted(cfg, m, now).1 ==> Counted(cfg, m, now).0.shares == 0
  {
  }

  lemma RaiseNeeds(previous: real, raised: real, factor: real)
    requires 0.0 < previous < raised <= Scaled(previous, factor) && !Slight(raised, previous)
    ensures factor >= 1.15
  {
    var ratio := raised / previous;
    assert ratio * previous == raised;
    if ratio < 1.0 {
      RealStrict(ratio, 1.0, previous);
    }
    if factor < ratio {
      RealStrict(factor, ratio, previous);
    }
  }

  lemma RaiseFits(base: real, e: nat, f: nat, previous: real, raised: real, factor: real)
    requires base > 0.0 && 0.0 < previous <= Doubled(base, e) && raised <= Scaled(previous, factor)
    requires (f == e + 1 && factor <= 2.0) || (f == e + 2 && factor <= 4.0)
    ensures raised <= Doubled(base, f)
  {
    var limit := Doubled(base, e);
    if f == e + 1 {
      ScaledAtMost(previous, factor, 2.0, limit);
    } else {
      assert Doubled(base, f) == 2.0 * Doubled(base, e + 1) == 4.0 * limit;
      ScaledAtMost(previous, factor, 4.0, limit);
    }
  }

  lemma ScaledAtMost(previous: real, factor: real, high: real, limit: real)
    requires 0.0 < previous <= limit && factor <= high && high > 0.0
    ensures Scaled(previous, factor) <= high * limit
  {
    RealMonotone(factor, high, previous);
    RealMonotone(previous, limit, high);
  }

  lemma NextGrows(cfg: Config, s: Line, base: real, e: nat, n: nat, event: Event) returns (f: nat)
    requires Sensible(cfg) && 10 * cfg.shareTarget < 1035 * SECOND
    requires WindowSound(s) && Grown(s, base, e, n) && base >= cfg.minimum
    requires Positive(event) && (event.Suggest? || event.Enter? ==> event.difficulty <= base)
    ensures Grown(Next(cfg, s, event), base, f, n + if event.Share? then 1 else 0)
  {
    f := e;
    DoubledMonotone(base, e, e);
    if event.Share? {
      if event.job < |s.jobs| {
        f := ShareGrows(cfg, s, base, e, n, event.now, s.jobs[event.job]);
      }
    } else {
      OtherKeepsLimit(cfg, s, event, Doubled(base, e));
    }
  }

  lemma OtherKeepsLimit(cfg: Config, s: Line, event: Event, limit: real)
    requires s.meter.difficulty > 0.0 && AtMost(s, limit) && cfg.minimum <= limit
    requires !event.Share? && (event.Suggest? || event.Enter? ==> event.difficulty <= limit)
    ensures AtMost(Next(cfg, s, event), limit)
  {
  }

  lemma ShareGrows(cfg: Config, s: Line, base: real, e: nat, n: nat, now: int, share: real) returns (f: nat)
    requires Sensible(cfg) && 10 * cfg.shareTarget < 1035 * SECOND
    requires WindowSound(s) && Grown(s, base, e, n) && base >= cfg.minimum && share <= Doubled(base, e)
    ensures Grown(s.(meter := Accepted(cfg, s.meter, now, share).0), base, f, n + 1)
  {
    f := e;
    var m := s.meter.(lastShare := At(now));
    if Same(share, m.lastDiff) && m.started.At? && Same(m.windowDifficulty, share) {
      f := CountedGrows(cfg, s, base, e, n, now);
    }
  }

  lemma {:induction false} RunGrows(cfg: Config, initial: real, events: seq<Event>, base: real) returns (e: nat)
    requires Sensible(cfg) && 10 * cfg.shareTarget < 1035 * SECOND
    requires 0.0 < initial <= base && cfg.minimum <= base
    requires forall i :: 0 <= i < |events| ==>
      Positive(events[i]) && (events[i].Suggest? || events[i].Enter? ==> events[i].difficulty <= base)
    ensures Grown(Run(cfg, initial, events), base, e, AcceptedShares(events))
  {
    if events == [] {
      e := 0;
      assert Doubled(base, 0) == base;
    } else {
      var d := RunGrows(cfg, initial, events[..|events| - 1], base);
      var before := events[..|events| - 1];
      e := NextGrows(cfg, Run(cfg, initial, before), base, d, AcceptedShares(before), events[|events| - 1]);
    }
  }

  /**
    n accepted shares raise the difficulty at most 4^(n/3)-fold over the highest
    starting value, for every share target below 103.5 seconds.
   */
  lemma GrowthBound(cfg: Config, initial: real, events: seq<Event>, base: real)
    requires Sensible(cfg) && 10 * cfg.shareTarget < 1035 * SECOND
    requires 0.0 < initial <= base && cfg.minimum <= base
    requires forall i :: 0 <= i < |events| ==>
      Positive(events[i]) && (events[i].Suggest? || events[i].Enter? ==> events[i].difficulty <= base)
    ensures Run(cfg, initial, events).meter.difficulty <= Quadrupled(base, AcceptedShares(events) / 3)
  {
    var e := RunGrows(cfg, initial, events, base);
    var n := AcceptedShares(events);
    GrownLimit(Run(cfg, initial, events), base, e, n);
    DoubledTwice(base, n / 3);
  }

  lemma GrownLimit(s: Line, base: real, e: nat, n: nat)
    requires base > 0.0 && Grown(s, base, e, n)
    ensures s.meter.difficulty <= Doubled(base, 2 * (n / 3))
  {
    Exponent(e, n);
    DoubledMonotone(base, e, 2 * (n / 3));
  }

  lemma Exponent(e: nat, n: nat)
    requires e == 0 || 3 * e <= 2 * n - 2
    ensures e <= 2 * (n / 3)
  {
  }

  // ----- Exactly when the bound holds

  /** Events of a client whose suggestions stay within the limits and below base. */
  ghost predicate Offered(cfg: Config, base: real, e: Event) {
    Positive(e) && (e.Suggest? || e.Enter? ==> Within(cfg, e.difficulty) && e.difficulty <= base)
  }

  ghost predicate AllOffered(cfg: Config, base: real, events: seq<Event>) {
    forall i :: 0 <= i < |events| ==> Offered(cfg, base, events[i])
  }

  ghost predicate ObeysBound(cfg: Config, base: real, initial: real, events: seq<Event>)
    requires Sensible(cfg) && Within(cfg, initial) && AllOffered(cfg, base, events)
  {
    Run(cfg, initial, events).meter.difficulty <= Quadrupled(base, AcceptedShares(events) / 3)
  }

  /** In every run that starts at most at base, n accepted shares raise the difficulty at most 4^(n/3)-fold. */
  ghost predicate GrowthIsBounded(cfg: Config, base: real)
    requires Sensible(cfg)
  {
    forall initial: real, events: seq<Event> ::
      Within(cfg, initial) && initial <= base && AllOffered(cfg, base, events) ==>
        ObeysBound(cfg, base, initial, events)
  }

  lemma NextAtMostBase(cfg: Config, s: Line, base: real, e: Event)
    requires Sensible(cfg) && WindowSound(s) && AtMost(s, base) && Offered(cfg, base, e)
    requires cfg.minimum <= base && cfg.maximum <= base
    ensures AtMost(Next(cfg, s, e), base)
  {
  }

  /** With no room above base, nothing raises the difficulty above it. */
  lemma {:induction false} RunAtMostBase(cfg: Config, initial: real, events: seq<Event>, base: real)
    requires Sensible(cfg) && Within(cfg, initial) && initial <= base && AllOffered(cfg, base, events)
    requires cfg.minimum <= base && cfg.maximum <= base
    ensures AtMost(Run(cfg, initial, events), base)
  {
    if events != [] {
      RunAtMostBase(cfg, initial, events[..|events| - 1], base);
      NextAtMostBase(cfg, Run(cfg, initial, events[..|events| - 1]), base, events[|events| - 1]);
    }
  }

  /** A difficulty of at most base from which a raise by 15% passes base and still fits below the maximum. */
  ghost function Launch(cfg: Config, base: real): real {
    Min(base, cfg.maximum / 1.15)
  }

  lemma LaunchFits(cfg: Config, base: real)
    requires Sensible(cfg) && cfg.minimum <= base < cfg.maximum
    ensures var d := Launch(cfg, base);
      0.0 < d <= base && 1.15 * d <= cfg.maximum && (d == base || 1.15 * d == cfg.maximum)
  {
  }

  /** One slow counted share raises the launching difficulty above base. */
  lemma LaunchRaised(cfg: Config, base: real, factor: real)
    requires Sensible(cfg) && cfg.minimum <= base < cfg.maximum && 1.15 <= factor <= 2.0
    ensures var d := Launch(cfg, base);
      d > 0.0 && Bounded(cfg, Scaled(d, factor)) > base && !Slight(Bounded(cfg, Scaled(d, factor)), d)
  {
    var d := Launch(cfg, base);
    LaunchFits(cfg, base);
    ScaledAtLeast(d, factor);
    NotSlight(d, Bounded(cfg, Scaled(d, factor)));
  }

  lemma ScaledAtLeast(d: real, factor: real)
    requires d > 0.0 && factor >= 1.15
    ensures Scaled(d, factor) >= 1.15 * d
  {
    RealMonotone(1.15, factor, d);
  }

  lemma NotSlight(previous: real, next: real)
    requires previous > 0.0 && next >= 1.15 * previous
    ensures !Slight(next, previous)
  {
    var ratio := next / previous;
    assert ratio * previous == next;
    if ratio < 1.15 {
      RealStrict(ratio, 1.15, previous);
    }
  }

  /** From 103.5 seconds on a single counted share at the interval raises by at least 15%. */
  lemma OneShareRaises(cfg: Config)
    requires Sensible(cfg) && 10 * cfg.shareTarget >= 1035 * SECOND
    ensures 1.15 <= Factor(cfg, 1, INTERVAL) <= 2.0
  {
    var t, x := cfg.shareTarget as real, INTERVAL as real;
    var observed := t / x;
    assert observed * x == t;
    assert observed >= 1.15;
    assert Observed(1, cfg.shareTarget, INTERVAL) == observed;
  }

  /** A job of a weaker network, announced and solved twice. */
  ghost function Escape(network: real): seq<Event> {
    [Publish(network), Send(0), Share(0, 0), Share(INTERVAL, 0)]
  }

  /** The state before the second share: a window just opened at the network's difficulty. */
  lemma BeforeEscape(cfg: Config, initial: real, network: real)
    requires Sensible(cfg) && Within(cfg, initial) && 0.0 < network <= initial
    ensures Run(cfg, initial, Escape(network)[..3])
      == Line(Meter(network, network, At(0), network, 0, At(0)), [network])
    ensures AcceptedShares(Escape(network)) == 2
  {
    var e4, e3, e2, e1 := Escape(network), Escape(network)[..3], Escape(network)[..2], Escape(network)[..1];
    assert e3[..2] == e2 && e2[..1] == e1 && e1[..0] == [];
    var s1 := Line(Meter(initial, 0.0, Never, 0.0, 0, Never), [network]);
    assert Run(cfg, initial, e1) == Next(cfg, Run(cfg, initial, []), Publish(network)) == s1;
    var s2 := s1.(meter := s1.meter.(lastDiff := network));
    assert Run(cfg, initial, e2) == Next(cfg, s1, Send(0)) == s2;
    assert Run(cfg, initial, e3) == Next(cfg, s2, Share(0, 0));
    AcceptedByKind([], Publish(network));
    AcceptedByKind(e1, Send(0));
    AcceptedByKind(e2, Share(0, 0));
    AcceptedByKind(e3, Share(INTERVAL, 0));
    assert e1 == [] + [Publish(network)] && e2 == e1 + [Send(0)] && e3 == e2 + [Share(0, 0)];
    assert e4 == e3 + [Share(INTERVAL, 0)];
  }

  lemma AcceptedByKind(events: seq<Event>, last: Event)
    ensures AcceptedShares(events + [last]) == AcceptedShares(events) + if last.Share? then 1 else 0
  {
    assert (events + [last])[..|events|] == events;
  }

  lemma EscapeRaises(cfg: Config, base: real)
    requires Sensible(cfg) && 10 * cfg.shareTarget >= 1035 * SECOND && cfg.minimum <= base < cfg.maximum
    ensures Launch(cfg, base) > 0.0
    ensures Run(cfg, base, Escape(Launch(cfg, base))).meter.difficulty > base
    ensures AcceptedShares(Escape(Launch(cfg, base))) == 2
  {
    var d := Launch(cfg, base);
    LaunchFits(cfg, base);
    BeforeEscape(cfg, base, d);
    OneShareRaises(cfg);
    LaunchRaised(cfg, base, Factor(cfg, 1, INTERVAL));
    var events := Escape(d);
    assert Run(cfg, base, events) == Next(cfg, Run(cfg, base, events[..3]), Share(INTERVAL, 0));
  }

  /**
    The growth bound holds of every run exactly when the share target is below
    103.5 seconds or there is no room above the highest starting value.
   */
  lemma GrowthBoundExact(cfg: Config, base: real)
    requires Sensible(cfg) && cfg.minimum <= base
    ensures GrowthIsBounded(cfg, base) <==> 10 * cfg.shareTarget < 1035 * SECOND || cfg.maximum <= base
  {
    if 10 * cfg.shareTarget < 1035 * SECOND {
      forall initial: real, events: seq<Event> |
        Within(cfg, initial) && initial <= base && AllOffered(cfg, base, events)
        ensures ObeysBound(cfg, base, initial, events)
      {
        GrowthBound(cfg, initial, events, base);
      }
    } else if cfg.maximum <= base {
      forall initial: real, events: seq<Event> |
        Within(cfg, initial) && initial <= base && AllOffered(cfg, base, events)
        ensures ObeysBound(cfg, base, initial, events)
      {
        RunAtMostBase(cfg, initial, events, base);
        QuadrupledGrows(base, AcceptedShares(events) / 3);
      }
    } else {
      EscapeRaises(cfg, base);
      LaunchFits(cfg, base);
      assert AllOffered(cfg, base, Escape(Launch(cfg, base)));
      assert !ObeysBound(cfg, base, base, Escape(Launch(cfg, base)));
    }
  }

  lemma {:induction false} QuadrupledGrows(base: real, k: nat)
    requires base > 0.0
    ensures base <= Quadrupled(base, k)
  {
    if k > 0 {
      QuadrupledGrows(base, k - 1);
    }
  }
}
