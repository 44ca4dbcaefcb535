// Division of a block reward by largest remainder (internal/store/store.go).

module Apportionment {
  import opened Arith
  import opened Sums
  import opened Ranking

  /** The value recorded for an address, zero when there is none. */
  function Get(m: map<string, nat>, a: string): nat {
    if a in m then m[a] else 0
  }

  function Reader(m: map<string, nat>): string -> int {
    (a: string) => Get(m, a)
  }

  ghost function Total(m: map<string, nat>): int {
    Sum(m.Keys, Reader(m))
  }

  /** Whole atoms owed for w units of work out of s, and what is left over. */
  function Quota(d: nat, s: nat, w: nat): nat
    requires s > 0
  {
    d * w / s
  }

  function Remainder(d: nat, s: nat, w: nat): nat
    requires s > 0
  {
    d * w % s
  }

  function RemainderKey(d: nat, s: nat, work: map<string, nat>): string -> int
    requires s > 0
  {
    (a: string) => Remainder(d, s, Get(work, a))
  }

  function QuotaKey(d: nat, s: nat, work: map<string, nat>): string -> int
    requires s > 0
  {
    (a: string) => Quota(d, s, Get(work, a))
  }

  /** The atoms that integer division leaves undistributed. */
  ghost function Leftover(d: nat, work: map<string, nat>): int
    requires Total(work) > 0
  {
    d - Sum(work.Keys, QuotaKey(d, Total(work), work))
  }

  /** The addresses that receive one extra atom. */
  ghost function Lucky(d: nat, work: map<string, nat>): set<string>
    requires Total(work) > 0
  {
    Top(work.Keys, RemainderKey(d, Total(work), work), Leftover(d, work))
  }

  /** The exact division: no loop and no iteration order is mentioned. */
  ghost function Apportion(d: nat, work: map<string, nat>): map<string, nat>
    requires Total(work) > 0
  {
    map a | a in work ::
      Quota(d, Total(work), work[a]) + if a in Lucky(d, work) then 1 else 0
  }

  lemma QuotaRemainder(d: nat, s: nat, w: nat)
    requires s > 0
    ensures d * w == Quota(d, s, w) * s + Remainder(d, s, w)
    ensures 0 <= Remainder(d, s, w) < s
  {
    var n := d * w;
    assert n == (n / s) * s + n % s;
  }

  /** Leftovers times total work is the sum of the remainders. */
  lemma LeftoverTimesWork(d: nat, work: map<string, nat>)
    requires Total(work) > 0
    ensures Leftover(d, work) * Total(work) == Sum(work.Keys, RemainderKey(d, Total(work), work))
  {
    var s := Total(work);
    var rem, quo := RemainderKey(d, s, work), QuotaKey(d, s, work);
    forall a | a in work.Keys ensures rem(a) == d * Reader(work)(a) + (-s) * quo(a) {
      QuotaRemainder(d, s, Get(work, a));
      MulSub(0, s, quo(a));
    }
    SumLinear(work.Keys, rem, d, Reader(work), -s, quo);
    MulSub(d, Sum(work.Keys, quo), s);
    MulSub(0, s, Sum(work.Keys, quo));
  }

  lemma FewerThan(left: int, s: int, n: int)
    requires s > 0 && n >= 0 && left * s <= n * (s - 1)
    ensures left <= n && (n > 0 ==> left < n)
  {
    MulSub(s, 1, n);
    if left >= n {
      MulMonotone(n, left, s);
    }
  }

  /** There are fewer leftovers than addresses, so the hand-out loop never wraps around. */
  lemma LeftoverBound(d: nat, work: map<string, nat>)
    requires Total(work) > 0
    ensures 0 <= Leftover(d, work) < |work|
  {
    var s, key := Total(work), RemainderKey(d, Total(work), work);
    LeftoverTimesWork(d, work);
    SumMonotone(work.Keys, key, (a: string) => s - 1);
    SumConstant(work.Keys, s - 1, (a: string) => s - 1);
    SumMonotone(work.Keys, (a: string) => 0, key);
    SumConstant(work.Keys, 0, (a: string) => 0);
    FewerThan(Leftover(d, work), s, |work.Keys|);
    assert work.Keys != {};
    NonNegativeFactor(Leftover(d, work), s);
  }

  lemma NonNegativeFactor(left: int, s: int)
    requires s > 0 && left * s >= 0
    ensures left >= 0
  {
  }

  ghost function Extra(lucky: set<string>): string -> int {
    (a: string) => if a in lucky then 1 else 0
  }

  lemma ExtraTotal(d: nat, work: map<string, nat>)
    requires Total(work) > 0
    ensures Sum(work.Keys, Extra(Lucky(d, work))) == Leftover(d, work)
  {
    LeftoverBound(d, work);
    TopSize(work.Keys, RemainderKey(d, Total(work), work), Leftover(d, work));
    SumIndicator(work.Keys, Lucky(d, work), Extra(Lucky(d, work)));
  }

  lemma ApportionAt(d: nat, work: map<string, nat>, a: string)
    requires Total(work) > 0 && a in work.Keys
    ensures Apportion(d, work).Keys == work.Keys
    ensures Reader(Apportion(d, work))(a) == QuotaKey(d, Total(work), work)(a) + Extra(Lucky(d, work))(a)
  {
  }

  /** Nothing is created or lost: the amounts add up to the distributable value. */
  lemma {:induction false} ApportionTotal(d: nat, work: map<string, nat>)
    requires Total(work) > 0
    ensures Apportion(d, work).Keys == work.Keys
    ensures Total(Apportion(d, work)) == d
  {
    var quota, extra, amount := QuotaKey(d, Total(work), work), Extra(Lucky(d, work)), Reader(Apportion(d, work));
    ExtraTotal(d, work);
    assert Apportion(d, work).Keys == work.Keys;
    forall a | a in work.Keys ensures amount(a) == quota(a) + extra(a) {
      ApportionAt(d, work, a);
    }
    SumAdd(work.Keys, amount, quota, extra);
  }

  /** Each amount is the exact share rounded down or up to an atom, so it is off by less than one atom. */
  lemma {:induction false} ApportionQuota(d: nat, work: map<string, nat>, a: string)
    requires Total(work) > 0 && a in work
    ensures Apportion(d, work)[a] == d * work[a] / Total(work) || Apportion(d, work)[a] == d * work[a] / Total(work) + 1
    ensures -Total(work) < Apportion(d, work)[a] * Total(work) - d * work[a] < Total(work)
  {
    var s, w := Total(work), work[a];
    var q, r := Quota(d, s, w), Remainder(d, s, w);
    QuotaRemainder(d, s, w);
    if a in Lucky(d, work) {
      if r == 0 {
        NoExtraWithoutRemainder(d, work, a);
      }
      Overshoot(s, d * w, q, 1, r, Apportion(d, work)[a]);
    } else {
      Overshoot(s, d * w, q, 0, r, Apportion(d, work)[a]);
    }
  }

  lemma Overshoot(s: int, n: int, q: int, j: int, r: int, x: int)
    requires n == q * s + r && 0 <= r < s && x == q + j
    ensures x * s - n == j * s - r
  {
    MulAdd(q, j, s);
  }

  /** An address whose share is a whole number of atoms receives exactly that share. */
  lemma NoExtraWithoutRemainder(d: nat, work: map<string, nat>, a: string)
    requires Total(work) > 0 && a in work
    requires d * work[a] % Total(work) == 0
    ensures a !in Lucky(d, work)
    ensures Apportion(d, work)[a] * Total(work) == d * work[a]
  {
    var s, key := Total(work), RemainderKey(d, Total(work), work);
    var fractional := set b | b in work.Keys && key(b) > 0;
    LeftoverTimesWork(d, work);
    SumRestrict(work.Keys, fractional, key);
    SumMonotone(fractional, key, (b: string) => s - 1);
    SumConstant(fractional, s - 1, (b: string) => s - 1);
    FewerThan(Leftover(d, work), s, |fractional|);
    CardinalityMonotone(fractional, Ahead(work.Keys, key, a));
    QuotaRemainder(d, s, work[a]);
  }

  lemma MoreWorkLargerQuota(d: nat, s: nat, v: nat, w: nat)
    requires s > 0 && v > w
    ensures Quota(d, s, v) >= Quota(d, s, w)
    ensures Quota(d, s, v) == Quota(d, s, w) && d > 0 ==> Remainder(d, s, v) > Remainder(d, s, w)
  {
    QuotaRemainder(d, s, v);
    QuotaRemainder(d, s, w);
    MulSub(v, w, d);
    if d > 0 {
      MulGrows(v - w, d);
    }
    MulSign(v - w, d);
    DivisionOrder(s, Quota(d, s, v), Quota(d, s, w), Remainder(d, s, v), Remainder(d, s, w));
  }

  /** Strictly more work never earns less. */
  lemma {:induction false} MoreWorkNeverEarnsLess(d: nat, work: map<string, nat>, a: string, b: string)
    requires Total(work) > 0 && a in work && b in work
    requires work[a] > work[b]
    ensures Apportion(d, work)[a] >= Apportion(d, work)[b]
  {
    var s, key := Total(work), RemainderKey(d, Total(work), work);
    MoreWorkLargerQuota(d, s, work[a], work[b]);
    if d == 0 {
      NoExtraWithoutRemainder(d, work, b);
    } else if Quota(d, s, work[a]) == Quota(d, s, work[b]) {
      RankFollowsOrder(work.Keys, key, a, b);
    }
  }

  /** An extra atom goes to the larger remainder, and between equal ones to the smaller address. */
  lemma {:induction false} ExtraAtomOrder(d: nat, work: map<string, nat>, a: string, b: string)
    requires Total(work) > 0 && a in work && b in work
    requires Apportion(d, work)[a] == d * work[a] / Total(work) + 1
    requires Apportion(d, work)[b] == d * work[b] / Total(work)
    ensures var p, q := d * work[a] % Total(work), d * work[b] % Total(work); p > q || (p == q && Less(a, b))
  {
    var s, key := Total(work), RemainderKey(d, Total(work), work);
    assert Apportion(d, work)[a] == Quota(d, s, work[a]) + 1 && a in Lucky(d, work);
    assert Apportion(d, work)[b] == Quota(d, s, work[b]) && b !in Lucky(d, work);
    BeforeIsStrictTotal(key, a, b, a);
    if Before(key, b, a) {
      RankFollowsOrder(work.Keys, key, b, a);
    }
  }

  ghost function Abs(x: int): int {
    if x < 0 then -x else x
  }

  /** How far, scaled by the total work, an amount x lies from the exact share. */
  ghost function Error(d: nat, work: map<string, nat>, x: map<string, int>): string -> int {
    (a: string) => Abs((if a in x then x[a] else 0) * Total(work) - d * Get(work, a))
  }

  /**
    One address owed r/s of an atom beyond its quota: keeping j extra atoms is
    best when moving an atom is charged s - 2 * t, with j == 0 for remainders up
    to t and j == 1 for remainders from t.
   */
  lemma Subgradient(s: int, r: int, t: int, j: int, k: int)
    requires 0 <= r < s && 0 <= t <= s
    requires (j == 0 && r <= t) || (j == 1 && r >= t)
    ensures Abs(k * s - r) >= Abs(j * s - r) + (s - 2 * t) * (k - j)
  {
    SlopeSplit(s, t, j, k);
    MulSub(s, t, k);
    if k >= 1 {
      MulGrows(k, s);
      MulGrows(k, t);
    } else {
      MulSign(s, k);
      MulSign(s - t, k);
    }
    SubgradientLinear(s, r, t, j, k, k * s, t * k);
  }

  lemma SlopeSplit(s: int, t: int, j: int, k: int)
    requires j == 0 || j == 1
    ensures (s - 2 * t) * (k - j) == k * s - 2 * (t * k) - if j == 0 then 0 else s - 2 * t
  {
    MulSub(k, j, s - 2 * t);
    MulSub(s, 2 * t, k);
  }

  lemma SubgradientLinear(s: int, r: int, t: int, j: int, k: int, ks: int, tk: int)
    requires 0 <= r < s && 0 <= t <= s
    requires (j == 0 && r <= t) || (j == 1 && r >= t)
    requires if k >= 1 then ks >= s && tk >= t else ks <= 0 && ks <= tk
    ensures Abs(ks - r) >= (if j == 0 then r else s - r) + (ks - 2 * tk) - (if j == 0 then 0 else s - 2 * t)
  {
  }

  /** The largest remainder among the addresses that get no extra atom. */
  ghost function Threshold(s: set<string>, key: string -> int): int
    ensures forall a :: a in s ==> key(a) <= Threshold(s, key)
    ensures Threshold(s, key) == 0 || exists a :: a in s && key(a) == Threshold(s, key)
    ensures Threshold(s, key) >= 0
  {
    if s == {} then 0 else
      var x :| x in s;
      var t := Threshold(s - {x}, key);
      if key(x) > t then key(x) else t
  }

  ghost function Cut(d: nat, work: map<string, nat>): int
    requires Total(work) > 0
  {
    Threshold(work.Keys - Lucky(d, work), RemainderKey(d, Total(work), work))
  }

  lemma CutBound(d: nat, work: map<string, nat>)
    requires Total(work) > 0
    ensures 0 <= Cut(d, work) < Total(work)
  {
    var key := RemainderKey(d, Total(work), work);
    if Cut(d, work) > 0 {
      var b :| b in work.Keys - Lucky(d, work) && key(b) == Cut(d, work);
      QuotaRemainder(d, Total(work), Get(work, b));
    }
  }

  /** Addresses with an extra atom have remainder at least the threshold, the others at most. */
  lemma ThresholdSeparates(d: nat, work: map<string, nat>, a: string)
    requires Total(work) > 0 && a in work
    ensures var r := Remainder(d, Total(work), work[a]);
      if a in Lucky(d, work) then r >= Cut(d, work) else r <= Cut(d, work)
  {
    var key := RemainderKey(d, Total(work), work);
    assert key(a) == Remainder(d, Total(work), work[a]);
    if a in Lucky(d, work) && key(a) < Cut(d, work) {
      QuotaRemainder(d, Total(work), work[a]);
      var b :| b in work.Keys - Lucky(d, work) && key(b) == Cut(d, work);
      RankFollowsOrder(work.Keys, key, b, a);
    }
  }

  /** x is n / s rounded down when the remainder is at most t, and up when it is at least t. */
  ghost predicate RoundedAt(s: int, n: int, x: int, t: int) {
    exists q: int, r: int :: Splits(s, n, q, r) && ((x == q && r <= t) || (x == q + 1 && r >= t))
  }

  ghost predicate Splits(s: int, n: int, q: int, r: int) {
    0 <= r < s && n == q * s + r
  }

  lemma ApportionRoundedAt(d: nat, work: map<string, nat>, a: string)
    requires Total(work) > 0 && a in work
    ensures RoundedAt(Total(work), d * work[a], Apportion(d, work)[a], Cut(d, work))
  {
    var s, w := Total(work), work[a];
    QuotaRemainder(d, s, w);
    ThresholdSeparates(d, work, a);
    assert Splits(s, d * w, Quota(d, s, w), Remainder(d, s, w));
  }

  lemma RoundedIsBest(s: int, n: int, t: int, x: int, y: int)
    requires RoundedAt(s, n, x, t) && 0 <= t <= s
    ensures Abs(y * s - n) >= Abs(x * s - n) + (s - 2 * t) * (y - x)
  {
    var q, r :| Splits(s, n, q, r) && ((x == q && r <= t) || (x == q + 1 && r >= t));
    Overshoot(s, n, q, x - q, r, x);
    Overshoot(s, n, q, y - q, r, y);
    Subgradient(s, r, t, x - q, y - q);
  }

  lemma RoundedErrorBound(
      d: nat, work: map<string, nat>, x: map<string, int>, y: map<string, int>, t: int, slope: int, move: int,
      a: string)
    requires slope == Total(work) - 2 * t && a in x && a in y && a in work && move == y[a] - x[a]
    requires 0 <= t <= Total(work) && RoundedAt(Total(work), d * work[a], x[a], t)
    ensures Error(d, work, y)(a) >= Error(d, work, x)(a) + slope * move
  {
    RoundedIsBest(Total(work), d * work[a], t, x[a], y[a]);
  }

  /** Rounding every share at one common threshold is optimal among all integer assignments with the same total. */
  lemma {:induction false} ThresholdRoundingOptimal(
      d: nat, work: map<string, nat>, x: map<string, int>, y: map<string, int>, t: int)
    requires 0 <= t <= Total(work) && x.Keys == y.Keys == work.Keys
    requires forall a :: a in work ==> RoundedAt(Total(work), d * work[a], x[a], t)
    requires Sum(work.Keys, (a: string) => if a in y then y[a] else 0)
      == Sum(work.Keys, (a: string) => if a in x then x[a] else 0)
    ensures Sum(work.Keys, Error(d, work, x)) <= Sum(work.Keys, Error(d, work, y))
  {
    var slope := Total(work) - 2 * t;
    var xs, ys := (a: string) => if a in x then x[a] else 0, (a: string) => if a in y then y[a] else 0;
    var moved := (a: string) => ys(a) - xs(a);
    SumAdd(work.Keys, ys, moved, xs);
    var best, other := Error(d, work, x), Error(d, work, y);
    forall a | a in work.Keys ensures other(a) >= best(a) + slope * moved(a) {
      RoundedErrorBound(d, work, x, y, t, slope, moved(a), a);
    }
    SubgradientSum(work.Keys, best, other, moved, slope);
  }

  lemma SubgradientSum(s: set<string>, best: string -> int, other: string -> int, moved: string -> int, slope: int)
    requires Sum(s, moved) == 0
    requires forall a :: a in s ==> other(a) >= best(a) + slope * moved(a)
    ensures Sum(s, best) <= Sum(s, other)
  {
    var bound := (a: string) => best(a) + slope * moved(a);
    SumLinear(s, bound, 1, best, slope, moved);
    SumMonotone(s, bound, other);
  }

  /**
    Largest remainder is optimal: no other assignment of d atoms to the same
    addresses, not even one with negative amounts, has a smaller total error.
   */
  lemma {:induction false} ApportionOptimal(d: nat, work: map<string, nat>, y: map<string, int>)
    requires Total(work) > 0 && y.Keys == work.Keys
    requires Sum(work.Keys, (a: string) => if a in y then y[a] else 0) == d
    ensures Sum(work.Keys, Error(d, work, Apportion(d, work))) <= Sum(work.Keys, Error(d, work, y))
  {
    var x: map<string, int> := Apportion(d, work);
    ApportionTotal(d, work);
    SumCongruent(work.Keys, Reader(Apportion(d, work)), (a: string) => if a in x then x[a] else 0);
    forall a | a in work ensures RoundedAt(Total(work), d * work[a], x[a], Cut(d, work)) {
      ApportionRoundedAt(d, work, a);
    }
    CutBound(d, work);
    ThresholdRoundingOptimal(d, work, x, y, Cut(d, work));
  }
}
