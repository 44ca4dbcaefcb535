// The order "largest key first, then smaller address first" used both for
// handing out leftover atoms and for choosing the recipients of a payout batch.

module Ranking {

  /** Lexicographic order on addresses, as Go compares strings. */
  predicate Less(a: string, b: string) {
    |b| > 0 && (|a| == 0 || a[0] < b[0] || (a[0] == b[0] && Less(a[1..], b[1..])))
  }

  lemma {:induction false} LessTrichotomy(a: string, b: string)
    ensures a == b || Less(a, b) || Less(b, a)
    ensures !(Less(a, b) && Less(b, a))
    ensures !Less(a, a)
  {
    if |a| > 0 && |b| > 0 {
      LessTrichotomy(a[1..], b[1..]);
      if a[0] == b[0] && a[1..] == b[1..] {
        assert a == [a[0]] + a[1..] && b == [b[0]] + b[1..];
      }
    }
    if |a| > 0 {
      LessTrichotomy(a[1..], a[1..]);
    }
  }

  /** Two texts differ first at k, or one ends there. */
  ghost predicate DifferAt(a: string, b: string, k: nat) {
    k <= |a| && k < |b| && a[..k] == b[..k] && (k < |a| ==> a[k] < b[k])
  }

  lemma SameHead(a: string, b: string, k: nat)
    ensures DifferAt(a, b, k) && k > 0 ==> a[0] == b[0]
  {
    if DifferAt(a, b, k) && k > 0 {
      assert a[..k][0] == b[..k][0];
    }
  }

  /** The order is decided at the first difference: by the smaller character, or by the text that ends there. */
  lemma {:induction false} LessAtFirstDifference(a: string, b: string)
    ensures Less(a, b) <==> exists k: nat :: DifferAt(a, b, k)
  {
    if |b| == 0 {
    } else if |a| == 0 || a[0] < b[0] {
      assert DifferAt(a, b, 0);
    } else if a[0] == b[0] {
      LessAtFirstDifference(a[1..], b[1..]);
      if Less(a, b) {
        var k: nat :| DifferAt(a[1..], b[1..], k);
        assert a[..k + 1] == [a[0]] + a[1..][..k] && b[..k + 1] == [b[0]] + b[1..][..k];
        assert DifferAt(a, b, k + 1);
      }
      forall k: nat | DifferAt(a, b, k) ensures k > 0 && DifferAt(a[1..], b[1..], k - 1) {
        assert a[1..][..k - 1] == a[..k][1..] && b[1..][..k - 1] == b[..k][1..];
      }
    } else {
      forall k: nat ensures !DifferAt(a, b, k) {
        SameHead(a, b, k);
      }
    }
  }

  lemma {:induction false} LessTransitive(a: string, b: string, c: string)
    requires Less(a, b) && Less(b, c)
    ensures Less(a, c)
  {
    if |a| > 0 && a[0] == b[0] == c[0] {
      LessTransitive(a[1..], b[1..], c[1..]);
    }
  }

  /** a is served before b: larger key, or equal keys and smaller address. */
  predicate Before(key: string -> int, a: string, b: string) {
    key(a) > key(b) || (key(a) == key(b) && Less(a, b))
  }

  lemma BeforeIsStrictTotal(key: string -> int, a: string, b: string, c: string)
    ensures a == b || Before(key, a, b) || Before(key, b, a)
    ensures !(Before(key, a, b) && Before(key, b, a))
    ensures !Before(key, a, a)
    ensures Before(key, a, b) && Before(key, b, c) ==> Before(key, a, c)
  {
    LessTrichotomy(a, b);
    if Less(a, b) && Less(b, c) {
      LessTransitive(a, b, c);
    }
  }

  /** How many members of s are served before a. */
  ghost function Ahead(s: set<string>, key: string -> int, a: string): set<string> {
    set b | b in s && Before(key, b, a)
  }

  ghost function Rank(s: set<string>, key: string -> int, a: string): nat {
    |Ahead(s, key, a)|
  }

  /** The first k members of s. */
  ghost function Top(s: set<string>, key: string -> int, k: int): set<string> {
    set a | a in s && Rank(s, key, a) < k
  }

  lemma CardinalityMonotone<T>(s: set<T>, t: set<T>)
    requires s <= t
    ensures |s| <= |t|
    ensures |s| == |t| ==> s == t
  {
    assert t == s + (t - s);
  }

  lemma RankBound(s: set<string>, key: string -> int, a: string)
    requires a in s
    ensures Rank(s, key, a) < |s|
  {
    BeforeIsStrictTotal(key, a, a, a);
    CardinalityMonotone(Ahead(s, key, a), s - {a});
  }

  lemma RankFollowsOrder(s: set<string>, key: string -> int, a: string, b: string)
    requires a in s && Before(key, a, b)
    ensures Rank(s, key, a) < Rank(s, key, b)
  {
    forall c | c in Ahead(s, key, a) ensures c in Ahead(s, key, b) - {a} {
      BeforeIsStrictTotal(key, c, a, b);
      BeforeIsStrictTotal(key, a, a, a);
    }
    CardinalityMonotone(Ahead(s, key, a), Ahead(s, key, b) - {a});
  }

  lemma {:induction false} LastExists(s: set<string>, key: string -> int) returns (last: string)
    requires s != {}
    ensures last in s
    ensures forall a :: a in s && a != last ==> Before(key, a, last)
  {
    last :| last in s;
    if s != {last} {
      var other := LastExists(s - {last}, key);
      BeforeIsStrictTotal(key, last, other, last);
      if Before(key, last, other) {
        last := other;
      } else {
        forall a | a in s && a != last ensures Before(key, a, last) {
          BeforeIsStrictTotal(key, a, other, last);
        }
      }
    }
  }

  /** Exactly k members rank below k: ranks are a bijection onto 0 .. |s|. */
  lemma {:induction false} TopSize(s: set<string>, key: string -> int, k: nat)
    ensures |Top(s, key, k)| == if k < |s| then k else |s|
    ensures k >= |s| ==> Top(s, key, k) == s
  {
    if k >= |s| {
      forall a | a in s ensures a in Top(s, key, k) {
        RankBound(s, key, a);
      }
      assert Top(s, key, k) == s;
    } else {
      var last := LastExists(s, key);
      var rest := s - {last};
      forall a | a in s ensures a in Top(s, key, k) <==> a in Top(rest, key, k) {
        BeforeIsStrictTotal(key, a, last, a);
        if a == last {
          BeforeIsStrictTotal(key, a, a, a);
          assert Ahead(s, key, last) == rest;
        } else {
          assert Ahead(s, key, a) == Ahead(rest, key, a);
        }
      }
      assert Top(s, key, k) == Top(rest, key, k);
      TopSize(rest, key, k);
    }
  }

  /** Who is left out is served after everyone chosen, and then k are chosen. */
  lemma TopLeavesOut(s: set<string>, key: string -> int, k: nat, a: string, b: string)
    requires a in Top(s, key, k) && b in s && b !in Top(s, key, k)
    ensures Before(key, a, b) && |Top(s, key, k)| == k
  {
    BeforeIsStrictTotal(key, a, b, a);
    if Before(key, b, a) {
      RankFollowsOrder(s, key, b, a);
    }
    TopSize(s, key, k);
  }

  /** Only the keys of the members matter. */
  lemma TopCongruent(s: set<string>, key: string -> int, other: string -> int, k: int)
    requires forall a :: a in s ==> key(a) == other(a)
    ensures Top(s, key, k) == Top(s, other, k)
  {
    forall a | a in s ensures Rank(s, key, a) == Rank(s, other, a) {
      assert Ahead(s, key, a) == Ahead(s, other, a);
    }
  }

  predicate SortedBy(xs: seq<string>, key: string -> int) {
    forall i, j :: 0 <= i < j < |xs| ==> Before(key, xs[i], xs[j])
  }

  ghost function Elements(xs: seq<string>): set<string> {
    set x | x in xs
  }

  lemma {:induction false} DistinctCount(xs: seq<string>)
    requires forall i, j :: 0 <= i < j < |xs| ==> xs[i] != xs[j]
    ensures |Elements(xs)| == |xs|
  {
    if xs != [] {
      DistinctCount(xs[1..]);
      assert Elements(xs) == {xs[0]} + Elements(xs[1..]);
    }
  }

  lemma SortedDistinct(xs: seq<string>, key: string -> int)
    requires SortedBy(xs, key)
    ensures forall i, j :: 0 <= i < j < |xs| ==> xs[i] != xs[j]
  {
    forall i, j | 0 <= i < j < |xs| ensures xs[i] != xs[j] {
      BeforeIsStrictTotal(key, xs[i], xs[j], xs[i]);
    }
  }

  /** In a sorted list the rank is the index. */
  lemma SortedRank(xs: seq<string>, key: string -> int, i: nat)
    requires SortedBy(xs, key) && i < |xs|
    ensures Rank(Elements(xs), key, xs[i]) == i
  {
    SortedDistinct(xs, key);
    var ahead := Ahead(Elements(xs), key, xs[i]);
    forall x ensures x in ahead <==> x in Elements(xs[..i]) {
      if x in ahead {
        var j :| 0 <= j < |xs| && xs[j] == x;
        BeforeIsStrictTotal(key, xs[i], x, x);
      }
    }
    assert ahead == Elements(xs[..i]);
    DistinctCount(xs[..i]);
  }

  /** The first k entries of a sorted list are the k best. */
  lemma SortedTop(xs: seq<string>, key: string -> int, k: nat)
    requires SortedBy(xs, key) && k <= |xs|
    ensures Elements(xs[..k]) == Top(Elements(xs), key, k)
  {
    SortedDistinct(xs, key);
    forall x ensures x in Elements(xs[..k]) <==> x in Top(Elements(xs), key, k) {
      if x in xs {
        var i :| 0 <= i < |xs| && xs[i] == x;
        SortedRank(xs, key, i);
        if x in xs[..k] {
          var j :| 0 <= j < k && xs[j] == x;
          assert i == j;
        }
        assert i < k ==> xs[..k][i] == x;
      }
    }
  }

  /** Where x belongs in a sorted list it is not part of. */
  method FindPlace(ys: seq<string>, key: string -> int, x: string) returns (i: nat)
    requires SortedBy(ys, key) && x !in ys
    ensures i <= |ys|
    ensures forall j :: 0 <= j < i ==> Before(key, ys[j], x)
    ensures forall j :: i <= j < |ys| ==> Before(key, x, ys[j])
  {
    i := 0;
    while i < |ys| && Before(key, ys[i], x)
      invariant i <= |ys|
      invariant forall j :: 0 <= j < i ==> Before(key, ys[j], x)
    {
      i := i + 1;
    }
    forall j | i <= j < |ys| ensures Before(key, x, ys[j]) {
      BeforeIsStrictTotal(key, ys[i], x, x);
      BeforeIsStrictTotal(key, x, ys[i], ys[j]);
    }
  }

  lemma InsertedElements(ys: seq<string>, i: nat, x: string)
    requires i <= |ys|
    ensures Elements(ys[..i] + [x] + ys[i..]) == Elements(ys) + {x}
  {
    assert ys == ys[..i] + ys[i..];
  }

  lemma ElementsAppend(xs: seq<string>, n: nat)
    requires n < |xs|
    ensures Elements(xs[..n + 1]) == Elements(xs[..n]) + {xs[n]}
  {
    assert xs[..n + 1] == xs[..n] + [xs[n]];
  }

  /**
    Sorts distinct addresses in the serving order, as sort.Slice does with that
    comparison. The comparison is a strict total order, so the outcome does not
    depend on the algorithm or on the initial order of xs.
   */
  method SortSlice(xs: seq<string>, key: string -> int) returns (ys: seq<string>)
    requires forall i, j :: 0 <= i < j < |xs| ==> xs[i] != xs[j]
    ensures SortedBy(ys, key)
    ensures Elements(ys) == Elements(xs) && |ys| == |xs|
  {
    ys := [];
    for n := 0 to |xs|
      invariant |ys| == n && SortedBy(ys, key)
      invariant Elements(ys) == Elements(xs[..n])
    {
      assert xs[n] !in Elements(xs[..n]);
      assert xs[n] !in ys by {
        assert forall y :: y in ys ==> y in Elements(ys);
      }
      var i := FindPlace(ys, key, xs[n]);
      InsertedElements(ys, i, xs[n]);
      ElementsAppend(xs, n);
      ys := ys[..i] + [xs[n]] + ys[i..];
    }
    assert xs[..|xs|] == xs;
  }

  /** Sorting fixes one list: two sorted lists of the same addresses are equal. */
  lemma {:induction false} SortedUnique(xs: seq<string>, ys: seq<string>, key: string -> int)
    requires SortedBy(xs, key) && SortedBy(ys, key)
    requires Elements(xs) == Elements(ys)
    ensures xs == ys
  {
    SortedDistinct(xs, key);
    SortedDistinct(ys, key);
    DistinctCount(xs);
    DistinctCount(ys);
    forall i | 0 <= i < |xs| ensures xs[i] == ys[i] {
      SortedRank(xs, key, i);
      SortedRank(ys, key, i);
      BeforeIsStrictTotal(key, xs[i], ys[i], xs[i]);
      if Before(key, xs[i], ys[i]) {
        assert xs[i] in Elements(xs);
        RankFollowsOrder(Elements(xs), key, xs[i], ys[i]);
      } else if Before(key, ys[i], xs[i]) {
        assert ys[i] in Elements(ys);
        RankFollowsOrder(Elements(xs), key, ys[i], xs[i]);
      }
    }
  }

  lemma SizeOfDifference<T>(s: set<T>, t: set<T>)
    requires t <= s
    ensures |s - t| == |s| - |t|
  {
    assert s == (s - t) + t;
  }
}
