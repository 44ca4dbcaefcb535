// Finite sums over sets, the arithmetic shared by the accounting proofs.

module Sums {

  /** The sum of f over the elements of s. */
  ghost function Sum<T(!new)>(s: set<T>, f: T -> int): int
  {
    if s == {} then 0 else
      var x :| x in s;
      f(x) + Sum(s - {x}, f)
  }

  /** Any element may be taken out first: the choice inside Sum does not matter. */
  lemma {:induction false} SumRemove<T(!new)>(s: set<T>, x: T, f: T -> int)
    requires x in s
    ensures Sum(s, f) == f(x) + Sum(s - {x}, f)
  {
    var y :| y in s && Sum(s, f) == f(y) + Sum(s - {y}, f);
    if y != x {
      SumRemove(s - {y}, x, f);
      SumRemove(s - {x}, y, f);
      assert s - {y} - {x} == s - {x} - {y};
    }
  }

  lemma SumInsert<T(!new)>(s: set<T>, x: T, f: T -> int)
    requires x !in s
    ensures Sum(s + {x}, f) == f(x) + Sum(s, f)
  {
    SumRemove(s + {x}, x, f);
    assert s + {x} - {x} == s;
  }

  lemma {:induction false} SumCongruent<T(!new)>(s: set<T>, f: T -> int, g: T -> int)
    requires forall x :: x in s ==> f(x) == g(x)
    ensures Sum(s, f) == Sum(s, g)
  {
    if s != {} {
      var x :| x in s;
      SumRemove(s, x, f);
      SumRemove(s, x, g);
      SumCongruent(s - {x}, f, g);
    }
  }

  lemma {:induction false} SumMonotone<T(!new)>(s: set<T>, f: T -> int, g: T -> int)
    requires forall x :: x in s ==> f(x) <= g(x)
    ensures Sum(s, f) <= Sum(s, g)
  {
    if s != {} {
      var x :| x in s;
      SumRemove(s, x, f);
      SumRemove(s, x, g);
      SumMonotone(s - {x}, f, g);
    }
  }

  /** A linear combination of two sums. */
  lemma {:induction false} SumLinear<T(!new)>(s: set<T>, h: T -> int, c: int, f: T -> int, d: int, g: T -> int)
    requires forall x :: x in s ==> h(x) == c * f(x) + d * g(x)
    ensures Sum(s, h) == c * Sum(s, f) + d * Sum(s, g)
  {
    if s != {} {
      var x :| x in s;
      SumRemove(s, x, f);
      SumRemove(s, x, g);
      SumRemove(s, x, h);
      SumLinear(s - {x}, h, c, f, d, g);
      CombineLinear(c, f(x), Sum(s - {x}, f), d, g(x), Sum(s - {x}, g));
    }
  }

  lemma CombineLinear(c: int, f: int, fs: int, d: int, g: int, gs: int)
    ensures c * f + d * g + (c * fs + d * gs) == c * (f + fs) + d * (g + gs)
  {
    assert c * (f + fs) == c * f + c * fs;
    assert d * (g + gs) == d * g + d * gs;
  }

  lemma SumAdd<T(!new)>(s: set<T>, h: T -> int, f: T -> int, g: T -> int)
    requires forall x :: x in s ==> h(x) == f(x) + g(x)
    ensures Sum(s, h) == Sum(s, f) + Sum(s, g)
  {
    SumLinear(s, h, 1, f, 1, g);
  }

  /** Summing the indicator of a subset counts it. */
  lemma {:induction false} SumIndicator<T(!new)>(s: set<T>, t: set<T>, f: T -> int)
    requires t <= s
    requires forall x :: x in s ==> f(x) == if x in t then 1 else 0
    ensures Sum(s, f) == |t|
  {
    if s != {} {
      var x :| x in s;
      SumRemove(s, x, f);
      SumIndicator(s - {x}, t - {x}, f);
    }
  }

  lemma {:induction false} SumConstant<T(!new)>(s: set<T>, c: int, f: T -> int)
    requires forall x :: x in s ==> f(x) == c
    ensures Sum(s, f) == |s| * c
  {
    if s != {} {
      var x :| x in s;
      SumRemove(s, x, f);
      SumConstant(s - {x}, c, f);
      assert |s| * c == |s - {x}| * c + c;
    }
  }

  /** Terms outside t that vanish may be dropped. */
  lemma {:induction false} SumRestrict<T(!new)>(s: set<T>, t: set<T>, f: T -> int)
    requires t <= s
    requires forall x :: x in s && x !in t ==> f(x) == 0
    ensures Sum(s, f) == Sum(t, f)
  {
    if s == t {
    } else {
      var x :| x in s && x !in t;
      SumRemove(s, x, f);
      SumRestrict(s - {x}, t, f);
    }
  }

  /** The order of a double summation may be exchanged: row sums and column sums of one table agree. */
  lemma {:induction false} SumExchange<A(!new), B(!new)>(
      s: set<A>, t: set<B>, f: A -> B -> int, g: B -> A -> int, rows: A -> int, columns: B -> int)
    requires forall a, b :: a in s && b in t ==> f(a)(b) == g(b)(a)
    requires forall a :: a in s ==> rows(a) == Sum(t, f(a))
    requires forall b :: b in t ==> columns(b) == Sum(s, g(b))
    ensures Sum(s, rows) == Sum(t, columns)
  {
    if s == {} {
      SumConstant(t, 0, columns);
    } else {
      var x :| x in s;
      SumRemove(s, x, rows);
      var fewer := (b: B) => Sum(s - {x}, g(b));
      SumExchange(s - {x}, t, f, g, rows, fewer);
      forall b | b in t ensures columns(b) == f(x)(b) + fewer(b) {
        SumRemove(s, x, g(b));
      }
      SumAdd(t, columns, f(x), fewer);
    }
  }

  /** Terms matched injectively into larger non-negative terms sum to no more. */
  lemma {:induction false} SumInjective<A(!new), B(!new)>(s: set<A>, t: set<B>, f: A -> int, g: B -> int, into: A -> B)
    requires forall a :: a in s ==> into(a) in t && f(a) <= g(into(a))
    requires forall a, b :: a in s && b in s && into(a) == into(b) ==> a == b
    requires forall b :: b in t ==> 0 <= g(b)
    ensures Sum(s, f) <= Sum(t, g)
  {
    if s == {} {
      SumMonotone(t, (b: B) => 0, g);
      SumConstant(t, 0, (b: B) => 0);
    } else {
      var a :| a in s;
      SumRemove(s, a, f);
      SumRemove(t, into(a), g);
      SumInjective(s - {a}, t - {into(a)}, f, g, into);
    }
  }
}
