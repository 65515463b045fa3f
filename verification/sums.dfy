/** Finite sums of real-valued weights over a set of keys.

    Every aggregate of the lease store, and every accumulator that an
    allocation algorithm fills while it ranges over a map, is such a sum. The
    definition picks the next key arbitrarily, just as a Go `range` does;
    `SumRemove` shows that the choice does not matter. */
module Sums {

  ghost function Sum<K>(s: set<K>, f: K -> real): real {
    if s == {} then 0.0 else
      var k :| k in s;
      f(k) + Sum(s - {k}, f)
  }

  /** Any member may be taken out first. */
  lemma {:induction false} SumRemove<K>(s: set<K>, k: K, f: K -> real)
    requires k in s
    ensures Sum(s, f) == f(k) + Sum(s - {k}, f)
    decreases |s|
  {
    var j :| j in s && Sum(s, f) == f(j) + Sum(s - {j}, f);
    if j != k {
      SumRemove(s - {j}, k, f);
      SumRemove(s - {k}, j, f);
      assert s - {j} - {k} == s - {k} - {j};
    }
  }

  lemma SumEmpty<K>(f: K -> real)
    ensures Sum({}, f) == 0.0
  {
  }

  lemma SumOne<K>(k: K, f: K -> real)
    ensures Sum({k}, f) == f(k)
  {
    SumRemove({k}, k, f);
    assert {k} - {k} == {};
  }

  lemma SumTwo<K>(j: K, k: K, f: K -> real)
    requires j != k
    ensures Sum({j, k}, f) == f(j) + f(k)
  {
    SumRemove({j, k}, j, f);
    assert {j, k} - {j} == {k};
    SumOne(k, f);
  }

  lemma SumThree<K>(i: K, j: K, k: K, f: K -> real)
    requires i != j && i != k && j != k
    ensures Sum({i, j, k}, f) == f(i) + f(j) + f(k)
  {
    SumRemove({i, j, k}, i, f);
    assert {i, j, k} - {i} == {j, k};
    SumTwo(j, k, f);
  }

  lemma SumFour<K>(h: K, i: K, j: K, k: K, f: K -> real)
    requires h != i && h != j && h != k && i != j && i != k && j != k
    ensures Sum({h, i, j, k}, f) == f(h) + f(i) + f(j) + f(k)
  {
    SumRemove({h, i, j, k}, h, f);
    assert {h, i, j, k} - {h} == {i, j, k};
    SumThree(i, j, k, f);
  }

  lemma {:induction false} SumAdd<K>(s: set<K>, h: K -> real, f: K -> real, g: K -> real)
    requires forall k | k in s :: h(k) == f(k) + g(k)
    ensures Sum(s, h) == Sum(s, f) + Sum(s, g)
    decreases |s|
  {
    if s != {} {
      var k :| k in s;
      SumRemove(s, k, f);
      SumRemove(s, k, g);
      SumRemove(s, k, h);
      SumAdd(s - {k}, h, f, g);
    }
  }

  lemma {:induction false} SumScale<K>(s: set<K>, a: real, f: K -> real, h: K -> real)
    requires forall k | k in s :: h(k) == a * f(k)
    ensures Sum(s, h) == a * Sum(s, f)
    decreases |s|
  {
    if s != {} {
      var k :| k in s;
      SumScale(s - {k}, a, f, h);
      ScaleStep(s, k, a, f, h);
    }
  }

  lemma ScaleStep<K>(s: set<K>, k: K, a: real, f: K -> real, h: K -> real)
    requires k in s && h(k) == a * f(k)
    requires Sum(s - {k}, h) == a * Sum(s - {k}, f)
    ensures Sum(s, h) == a * Sum(s, f)
  {
    hide Sum;
    SumRemove(s, k, f);
    SumRemove(s, k, h);
    Distribute(a, f(k), Sum(s - {k}, f));
  }

  lemma Distribute(a: real, x: real, y: real)
    ensures a * (x + y) == a * x + a * y
  {
  }

  /** Balancing three weights against three, key by key. */
  lemma SumBalance<K>(s: set<K>, f1: K -> real, f2: K -> real, f3: K -> real,
                      g1: K -> real, g2: K -> real, g3: K -> real)
    requires forall k | k in s :: f1(k) + f2(k) + f3(k) == g1(k) + g2(k) + g3(k)
    ensures Sum(s, f1) + Sum(s, f2) + Sum(s, f3) == Sum(s, g1) + Sum(s, g2) + Sum(s, g3)
  {
    hide Sum;
    var f12: K -> real := k => f1(k) + f2(k);
    var g12: K -> real := k => g1(k) + g2(k);
    var all: K -> real := k => f12(k) + f3(k);
    SumAdd(s, f12, f1, f2);
    SumAdd(s, g12, g1, g2);
    SumAdd(s, all, f12, f3);
    SumAdd(s, all, g12, g3);
  }

  lemma SumSame<K>(s: set<K>, f: K -> real, g: K -> real)
    requires forall k | k in s :: f(k) == g(k)
    ensures Sum(s, f) == Sum(s, g)
  {
    SumDominated(s, f, s, g);
    SumDominated(s, g, s, f);
  }

  /** Comparing two sums over different key sets: a key that the first set has
      and the second lacks must not count, and a key that only the second set
      has must not count against it. */
  lemma {:induction false} SumDominated<K>(s: set<K>, f: K -> real, t: set<K>, g: K -> real)
    requires forall k | k in s :: f(k) <= if k in t then g(k) else 0.0
    requires forall k | k in t && k !in s :: 0.0 <= g(k)
    ensures Sum(s, f) <= Sum(t, g)
    decreases |s| + |t|
  {
    if s != {} {
      var k :| k in s;
      SumRemove(s, k, f);
      if k in t {
        SumRemove(t, k, g);
        SumDominated(s - {k}, f, t - {k}, g);
      } else {
        SumDominated(s - {k}, f, t, g);
      }
    } else if t != {} {
      var k :| k in t;
      SumRemove(t, k, g);
      SumDominated(s, f, t - {k}, g);
    }
  }

  lemma SumMono<K>(s: set<K>, f: K -> real, g: K -> real)
    requires forall k | k in s :: f(k) <= g(k)
    ensures Sum(s, f) <= Sum(s, g)
  {
    SumDominated(s, f, s, g);
  }

  lemma SumNonnegative<K>(s: set<K>, f: K -> real)
    requires forall k | k in s :: 0.0 <= f(k)
    ensures 0.0 <= Sum(s, f)
  {
    SumDominated({}, f, s, f);
  }

  /** A sum of weights that are not negative bounds each of them. */
  lemma SumBoundsMember<K>(s: set<K>, k: K, f: K -> real)
    requires k in s && forall j | j in s :: 0.0 <= f(j)
    ensures f(k) <= Sum(s, f)
  {
    SumRemove(s, k, f);
    SumNonnegative(s - {k}, f);
  }

  /** Changing the weight of one key, which may be new. */
  lemma SumChange<K>(s: set<K>, k: K, f: K -> real, g: K -> real)
    requires forall j | j in s && j != k :: f(j) == g(j)
    ensures Sum(s + {k}, g) == Sum(s, f) - (if k in s then f(k) else 0.0) + g(k)
    ensures Sum(s - {k}, g) == Sum(s, f) - (if k in s then f(k) else 0.0)
  {
    var rest := s - {k};
    assert Sum(s + {k}, g) == g(k) + Sum(rest, g) by {
      SumRemove(s + {k}, k, g);
      assert s + {k} - {k} == rest;
    }
    assert Sum(rest, f) == Sum(rest, g) by {
      SumSame(rest, f, g);
    }
    if k in s {
      SumRemove(s, k, f);
    } else {
      assert rest == s;
    }
  }
}
