// Difficulty, 256-bit targets and credited work (internal/stratum/work.go).
// Difficulties are reals; the roundings of math/big and float64 are parameters
// of which only the stated properties are used.

module Targets {
  import opened Arith
  import opened ShareWindow

  /** 2^256. */
  const TWO_TO_256: nat := 0x1_0000000000000000_0000000000000000_0000000000000000_0000000000000000

  /** Difficulty one: 00000000ffff followed by zeros. */
  const DIFFICULTY_ONE: nat := 0xffff * 0x1_0000000000000000_0000000000000000_0000000000000000_0000

  /** A 32-byte target or hash, read as a big-endian number. */
  type Target = t: nat | t < TWO_TO_256 witness 0

  /** Expected hashes for a target. */
  function TargetWork(target: Target): nat {
    TWO_TO_256 / (target + 1)
  }

  lemma DivisionAntitone(n: nat, a: nat, b: nat)
    requires 0 < a <= b
    ensures n / b <= n / a
  {
    DivMod(n, a);
    DivMod(n, b);
    MulMonotone(a, b, n / b);
    DivisionBelow(n, a, n / b, n / a, n % a);
  }

  lemma DivisionBelow(n: nat, a: nat, p: nat, q: nat, r: nat)
    requires a > 0 && n == q * a + r && r < a && a * p <= n
    ensures p <= q
  {
    if p > q {
      MulMonotone(q + 1, p, a);
      MulAdd(q, 1, a);
    }
  }

  /** A harder target is worth at least as much work, and every target at least one hash. */
  lemma {:induction false} WorkAntitone(easy: Target, hard: Target)
    requires hard <= easy
    ensures 1 <= TargetWork(easy) <= TargetWork(hard) <= TWO_TO_256
  {
    DivisionAntitone(TWO_TO_256, hard + 1, easy + 1);
    DivisionAntitone(TWO_TO_256, easy + 1, TWO_TO_256);
  }

  // ----- Rounding

  /**
    How difficulties are represented. `wide` is rounding to 256 bits, `nearest`
    rounding to float64, `next` the following float64, and `grid` the float64 values.
   */
  datatype Rounding = Rounding(wide: real -> real, nearest: real -> real, next: real -> real, ghost grid: real -> bool)

  ghost predicate Whole(x: real) {
    0.0 <= x < TWO_TO_256 as real && x == x.Floor as real
  }

  ghost predicate Faithful(r: Rounding) {
    && (forall x: real, y: real :: x <= y ==> r.wide(x) <= r.wide(y))
    && (forall x: real :: Whole(x) || r.grid(x) ==> r.wide(x) == x)
    && (forall x: real :: Nearest(r, x, r.nearest(x)))
    && (forall x: real {:trigger r.next(x)} :: r.grid(x) ==> Following(r, x, r.next(x)))
  }

  /** n is representable with nothing representable strictly between it and x. */
  ghost predicate Nearest(r: Rounding, x: real, n: real) {
    r.grid(n) && (r.grid(x) ==> n == x) && forall g: real :: r.grid(g) ==> !(n < g < x) && !(x < g < n)
  }

  /** n is the first representable value above x. */
  ghost predicate Following(r: Rounding, x: real, n: real) {
    r.grid(n) && x < n && forall g: real :: r.grid(g) && x < g ==> n <= g
  }

  ghost function Integer(n: int): real {
    n as real
  }

  ghost predicate IsInteger(x: real) {
    exists n: int :: x == Integer(n)
  }

  /** The assumptions are consistent: whole numbers as the only difficulties, and no other rounding. */
  ghost function WholeNumbers(): Rounding {
    Rounding(x => x, (x: real) => x.Floor as real, x => x + 1.0, IsInteger)
  }

  lemma NoWholeBetween(n: int, m: int, x: real)
    requires Integer(n) <= x < Integer(n) + 1.0
    ensures !(Integer(n) < Integer(m) < x) && (Integer(m) > x ==> Integer(m) >= Integer(n) + 1.0)
  {
    if m <= n {
      assert Integer(m) <= Integer(n);
    } else {
      assert Integer(n + 1) <= Integer(m);
    }
  }

  lemma BetweenWhole(n: int, x: real, g: real)
    requires Integer(n) <= x < Integer(n) + 1.0 && IsInteger(g)
    ensures !(Integer(n) < g < x) && !(x < g < Integer(n))
    ensures x < g ==> Integer(n) + 1.0 <= g
  {
    var m: int :| g == Integer(m);
    NoWholeBetween(n, m, x);
  }

  lemma WholeNearest(n: int, x: real)
    requires Integer(n) <= x < Integer(n) + 1.0
    ensures Nearest(WholeNumbers(), x, Integer(n))
  {
    forall g: real | IsInteger(g) ensures !(Integer(n) < g < x) && !(x < g < Integer(n)) {
      BetweenWhole(n, x, g);
    }
    if IsInteger(x) {
      BetweenWhole(n, Integer(n), x);
    }
  }

  lemma WholeFollowing(n: int)
    ensures Following(WholeNumbers(), Integer(n), Integer(n) + 1.0)
  {
    assert Integer(n) + 1.0 == Integer(n + 1);
    forall g: real | IsInteger(g) && Integer(n) < g ensures Integer(n) + 1.0 <= g {
      BetweenWhole(n, Integer(n), g);
    }
  }

  lemma {:induction false} WholeNumbersFaithful()
    ensures Faithful(WholeNumbers())
  {
    var r := WholeNumbers();
    forall x: real ensures Nearest(r, x, r.nearest(x)) {
      WholeNearest(x.Floor, x);
    }
    forall x: real | r.grid(x) ensures Following(r, x, r.next(x)) {
      var n: int :| x == Integer(n);
      WholeFollowing(n);
    }
  }

  /** The difficulty of a target, rounded up to a representable value; zero stands for an error. */
  function TargetDifficulty(r: Rounding, target: Target): real {
    if target == 0 then 0.0
    else
      var ratio := r.wide(DIFFICULTY_ONE as real / target as real);
      var difficulty := r.nearest(ratio);
      if difficulty < ratio then r.next(difficulty) else difficulty
  }

  /** Clamped to 1 .. 2^256 - 1. */
  function Clamp(value: int): Target {
    if value <= 0 then 1 else if value > TWO_TO_256 - 1 then TWO_TO_256 - 1 else value
  }

  function TargetForDifficulty(r: Rounding, difficulty: real): Target
    requires difficulty > 0.0
  {
    Clamp(r.wide(DIFFICULTY_ONE as real / difficulty).Floor)
  }

  /** The difficulty a job is announced with: never above the network's. */
  function JobDifficulty(difficulty: real, network: real): (announced: real)
    ensures announced <= difficulty && announced <= network && (announced == difficulty || announced == network)
  {
    if difficulty >= network then network else difficulty
  }

  /** The share target of a job. */
  function JobTarget(r: Rounding, difficulty: real, target: Target): Target
    requires difficulty > 0.0
  {
    if difficulty >= TargetDifficulty(r, target) then target else TargetForDifficulty(r, difficulty)
  }

  /** The network difficulty is the least representable value not below the rounded ratio. */
  lemma DifficultyRoundsUp(r: Rounding, target: Target, g: real)
    requires Faithful(r) && target > 0
    ensures TargetDifficulty(r, target) >= r.wide(DIFFICULTY_ONE as real / target as real)
    ensures r.grid(TargetDifficulty(r, target))
    ensures r.grid(g) && g < TargetDifficulty(r, target) ==> g < r.wide(DIFFICULTY_ONE as real / target as real)
  {
    var ratio := r.wide(DIFFICULTY_ONE as real / target as real);
    var difficulty := r.nearest(ratio);
    assert Nearest(r, ratio, difficulty);
    if difficulty < ratio {
      assert Following(r, difficulty, r.next(difficulty));
    }
  }

  lemma DivideSwap(a: real, b: real, c: real)
    requires a > 0.0 && b > 0.0 && c > 0.0 && c <= a / b
    ensures b <= a / c
  {
    var q := a / b;
    assert q * b == a;
    assert c * b <= a by {
      RealMonotone(c, q, b);
    }
    var p := a / c;
    assert p * c == a;
    if p < b {
      RealStrict(p, b, c);
    }
  }

  /** Below the network difficulty, dividing difficulty one gives back at least the block target. */
  lemma EasierQuotient(r: Rounding, difficulty: real, target: Target)
    requires Faithful(r) && r.grid(difficulty) && difficulty > 0.0 && target > 0
    requires difficulty < TargetDifficulty(r, target)
    ensures r.wide(DIFFICULTY_ONE as real / difficulty) >= target as real
  {
    var exact, whole := DIFFICULTY_ONE as real / target as real, target as real;
    DifficultyRoundsUp(r, target, difficulty);
    assert r.wide(difficulty) == difficulty;
    assert difficulty <= exact;
    DivideSwap(DIFFICULTY_ONE as real, whole, difficulty);
    assert Whole(whole);
    assert r.wide(whole) <= r.wide(DIFFICULTY_ONE as real / difficulty);
  }

  /** The share target is never harder than the block target, for every representable difficulty. */
  lemma ShareTargetNotHarder(r: Rounding, difficulty: real, target: Target)
    requires Faithful(r) && r.grid(difficulty) && difficulty > 0.0 && target > 0
    ensures JobTarget(r, difficulty, target) >= target
  {
    if difficulty < TargetDifficulty(r, target) {
      EasierQuotient(r, difficulty, target);
      ClampAtLeast(r.wide(DIFFICULTY_ONE as real / difficulty), target);
    }
  }

  /** A winning hash is a valid share, and a share is worth no more than the block. */
  lemma {:induction false} WinningHashIsShare(r: Rounding, difficulty: real, target: Target, hash: Target)
    requires Faithful(r) && r.grid(difficulty) && difficulty > 0.0 && target > 0
    ensures hash <= target ==> hash <= JobTarget(r, difficulty, target)
    ensures TargetWork(JobTarget(r, difficulty, target)) <= TargetWork(target)
  {
    ShareTargetNotHarder(r, difficulty, target);
    WorkAntitone(JobTarget(r, difficulty, target), target);
  }

  /** So the winner's own work is always counted whole: the window is a multiple of the block's work. */
  lemma {:induction false} WinnerCountedWhole(
      r: Rounding, difficulty: real, target: Target, windows: nat, older: seq<Share>, winner: Share)
    requires Faithful(r) && r.grid(difficulty) && difficulty > 0.0 && target > 0 && windows >= 1
    requires winner.work == TargetWork(JobTarget(r, difficulty, target))
    ensures var window := TargetWork(target) * windows;
      multiset(Take(Units(older + [winner]), window))[winner.address] >= winner.work
  {
    WinningHashIsShare(r, difficulty, target, 0);
    WorkAntitone(JobTarget(r, difficulty, target), JobTarget(r, difficulty, target));
    MulGrows(windows, TargetWork(target));
    WinnerWhole(older, winner, TargetWork(target), windows);
  }

  lemma WinnerWhole(older: seq<Share>, winner: Share, work: nat, windows: nat)
    requires 0 < winner.work <= work && work * windows >= work
    ensures multiset(Take(Units(older + [winner]), work * windows))[winner.address] >= winner.work
  {
    WinnerInUnits(older, winner, work * windows);
  }

  // ----- The target of a difficulty

  lemma ClampAtLeast(x: real, n: nat)
    requires n as real <= x && n < TWO_TO_256
    ensures Clamp(x.Floor) >= n
  {
  }

  lemma ClampAtMost(x: real, n: nat)
    requires x <= n as real && 1 <= n < TWO_TO_256
    ensures Clamp(x.Floor) <= n
  {
  }

  /**
    The target of a difficulty is difficulty one divided by it, to the next whole
    number and within 1 .. 2^256 - 1: it lies on the same side of every whole
    number as the exact quotient.
   */
  lemma TargetIsQuotient(r: Rounding, difficulty: real, n: nat)
    requires Faithful(r) && difficulty > 0.0 && 1 <= n < TWO_TO_256
    ensures n as real <= DIFFICULTY_ONE as real / difficulty ==> TargetForDifficulty(r, difficulty) >= n
    ensures DIFFICULTY_ONE as real / difficulty <= n as real ==> TargetForDifficulty(r, difficulty) <= n
    ensures TargetForDifficulty(r, difficulty) >= 1
  {
    var exact, whole := DIFFICULTY_ONE as real / difficulty, n as real;
    assert Whole(whole) && r.wide(whole) == whole;
    if whole <= exact {
      assert r.wide(whole) <= r.wide(exact);
      ClampAtLeast(r.wide(exact), n);
    }
    if exact <= whole {
      assert r.wide(exact) <= r.wide(whole);
      ClampAtMost(r.wide(exact), n);
    }
  }

  /**
    A job asks for what it announces: at the network difficulty or above, the
    network's own difficulty and target, and below it the client's difficulty and
    the quotient that belongs to it.
   */
  lemma JobIsConsistent(r: Rounding, difficulty: real, target: Target, n: nat)
    requires Faithful(r) && difficulty > 0.0 && target > 0 && 1 <= n < TWO_TO_256
    ensures var announced := JobDifficulty(difficulty, TargetDifficulty(r, target));
      && (difficulty >= announced)
      && (announced == TargetDifficulty(r, target) ==>
        JobTarget(r, difficulty, target) == target)
      && (announced < TargetDifficulty(r, target) ==>
        && announced == difficulty
        && (n as real <= DIFFICULTY_ONE as real / announced ==> JobTarget(r, difficulty, target) >= n)
        && (DIFFICULTY_ONE as real / announced <= n as real ==> JobTarget(r, difficulty, target) <= n))
  {
    TargetIsQuotient(r, difficulty, n);
  }

  // ----- Bounds on credited work

  /** Expected hashes for a target, without a division. */
  lemma WorkTimesTarget(t: Target)
    ensures TargetWork(t) * (t + 1) <= TWO_TO_256 < (TargetWork(t) + 1) * (t + 1)
  {
    DivMod(TWO_TO_256, t + 1);
    MulAdd(TargetWork(t), 1, t + 1);
  }

  lemma ProductAsReal(a: nat, t: nat)
    ensures (a * (t + 1)) as real == a as real * (t as real + 1.0)
  {
    assert (t + 1) as real == t as real + 1.0;
    assert (a * (t + 1)) as real == a as real * (t + 1) as real;
  }

  /** The target differs from an exact quotient x within its range by less than one. */
  lemma TargetNearQuotient(r: Rounding, difficulty: real)
    requires Faithful(r) && difficulty > 0.0
    requires 1.0 <= DIFFICULTY_ONE as real / difficulty <= (TWO_TO_256 - 1) as real
    ensures var t, x := TargetForDifficulty(r, difficulty), DIFFICULTY_ONE as real / difficulty;
      x < t as real + 1.0 < x + 2.0
  {
    var x := DIFFICULTY_ONE as real / difficulty;
    var low := x.Floor;
    TargetIsQuotient(r, difficulty, low);
    if x == low as real {
    } else {
      assert low + 1 < TWO_TO_256;
      TargetIsQuotient(r, difficulty, low + 1);
    }
  }

  lemma ProductBelow(w: real, x: real, y: real, n: real)
    requires w >= 0.0 && n > 0.0 && x < y && w * y <= n
    ensures w * x < n
  {
    if w > 0.0 {
      RealStrict(x, y, w);
    }
  }

  lemma ProductAbove(w: real, y: real, z: real, n: real)
    requires w > 0.0 && y < z && n < w * y
    ensures n < w * z
  {
    RealStrict(y, z, w);
  }

  /** Work times exact quotient, from work times target. */
  lemma WorkTimesQuotient(w: nat, t: nat, x: real, n: nat)
    requires n > 0 && w * (t + 1) <= n < (w + 1) * (t + 1) && x < t as real + 1.0 < x + 2.0
    ensures w as real * x < n as real < (w + 1) as real * (x + 2.0)
  {
    ProductAsReal(w, t);
    ProductAsReal(w + 1, t);
    ProductBelow(w as real, x, t as real + 1.0, n as real);
    ProductAbove((w + 1) as real, t as real + 1.0, x + 2.0, n as real);
  }

  /**
    A share is credited with the work its difficulty stands for: below 2^256
    divided by the exact quotient D1 / d, and above 2^256 / (D1 / d + 2) - 1,
    stated without dividing.
   */
  lemma WorkBounds(r: Rounding, difficulty: real)
    requires Faithful(r) && difficulty > 0.0
    requires 1.0 <= DIFFICULTY_ONE as real / difficulty <= (TWO_TO_256 - 1) as real
    ensures var w, x := TargetWork(TargetForDifficulty(r, difficulty)), DIFFICULTY_ONE as real / difficulty;
      w as real * x < TWO_TO_256 as real < (w + 1) as real * (x + 2.0)
  {
    var t: nat := TargetForDifficulty(r, difficulty);
    TargetNearQuotient(r, difficulty);
    WorkTimesTarget(t);
    WorkTimesQuotient(TargetWork(t), t, DIFFICULTY_ONE as real / difficulty, TWO_TO_256);
  }

  // ----- Comparing byte strings

  type Byte = b: nat | b < 256 witness 0

  function BigEndian(bytes: seq<Byte>): nat {
    if bytes == [] then 0 else 256 * BigEndian(bytes[..|bytes| - 1]) + bytes[|bytes| - 1]
  }

  /** bytes.Compare on strings of one length: negative, zero or positive. */
  function Compare(a: seq<Byte>, b: seq<Byte>): int
    requires |a| == |b|
  {
    if a == [] then 0 else if a[0] != b[0] then a[0] as int - b[0] as int else Compare(a[1..], b[1..])
  }

  lemma {:induction false} CompareLast(a: seq<Byte>, b: seq<Byte>)
    requires |a| == |b| > 0
    ensures var n := |a| - 1; var c := Compare(a[..n], b[..n]);
      var last: int := a[n]; Compare(a, b) == if c != 0 then c else last - b[n]
    decreases |a|
  {
    var n := |a| - 1;
    if n > 0 {
      CompareLast(a[1..], b[1..]);
      assert a[..n][1..] == a[1..][..n - 1] && b[..n][1..] == b[1..][..n - 1];
      assert a[1..][n - 1] == a[n] && b[1..][n - 1] == b[n];
    } else {
      assert a[1..] == [] && b[1..] == [];
    }
  }

  /** Comparing big-endian byte strings compares the numbers. */
  lemma {:induction false} CompareIsNumeric(a: seq<Byte>, b: seq<Byte>)
    requires |a| == |b|
    ensures Compare(a, b) > 0 <==> BigEndian(a) > BigEndian(b)
    ensures Compare(a, b) == 0 <==> BigEndian(a) == BigEndian(b)
    decreases |a|
  {
    if |a| > 0 {
      var n := |a| - 1;
      CompareLast(a, b);
      CompareIsNumeric(a[..n], b[..n]);
    }
  }
}
