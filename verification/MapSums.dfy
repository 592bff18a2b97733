/** Sums of a quantity over the values of a map, independent of iteration order. */
module MapSums {

  ghost function Sum<K, V>(m: map<K, V>, f: V -> nat): nat
    decreases |m.Keys|
  {
    if m.Keys == {} then 0
    else
      var k :| k in m.Keys;
      assert (m - {k}).Keys == m.Keys - {k};
      f(m[k]) + Sum(m - {k}, f)
  }

  /** Any key may be taken out first. */
  lemma {:induction false} SumRemove<K, V>(m: map<K, V>, k: K, f: V -> nat)
    requires k in m
    ensures Sum(m, f) == f(m[k]) + Sum(m - {k}, f)
    decreases |m.Keys|
  {
    var first :| first in m.Keys && Sum(m, f) == f(m[first]) + Sum(m - {first}, f);
    if first != k {
      var a, b := m - {first}, m - {k};
      assert a.Keys == m.Keys - {first} && b.Keys == m.Keys - {k};
      SumRemove(a, k, f);
      SumRemove(b, first, f);
      assert a - {k} == b - {first};
    }
  }

  lemma SumInsert<K, V>(m: map<K, V>, k: K, v: V, f: V -> nat)
    ensures Sum(m[k := v], f) == Sum(m, f) + f(v) - (if k in m then f(m[k]) else 0)
  {
    SumRemove(m[k := v], k, f);
    assert m[k := v] - {k} == m - {k};
    if k in m {
      SumRemove(m, k, f);
    } else {
      assert m - {k} == m;
    }
  }

  lemma {:induction false} SumLe<K, V>(m: map<K, V>, f: V -> nat, g: V -> nat)
    requires forall k :: k in m ==> f(m[k]) <= g(m[k])
    ensures Sum(m, f) <= Sum(m, g)
    decreases |m.Keys|
  {
    if m.Keys != {} {
      var k :| k in m.Keys;
      assert (m - {k}).Keys == m.Keys - {k};
      SumLe(m - {k}, f, g);
      SumRemove(m, k, f);
      SumRemove(m, k, g);
    }
  }

  lemma {:induction false} SumAdd<K, V>(m: map<K, V>, f: V -> nat, g: V -> nat, h: V -> nat)
    requires forall k :: k in m ==> f(m[k]) + g(m[k]) == h(m[k])
    ensures Sum(m, f) + Sum(m, g) == Sum(m, h)
    decreases |m.Keys|
  {
    if m.Keys != {} {
      var k :| k in m.Keys;
      assert (m - {k}).Keys == m.Keys - {k};
      SumAdd(m - {k}, f, g, h);
      SumRemove(m, k, f);
      SumRemove(m, k, g);
      SumRemove(m, k, h);
    }
  }

  lemma {:induction false} SumZero<K, V>(m: map<K, V>, f: V -> nat)
    requires forall k :: k in m ==> f(m[k]) == 0
    ensures Sum(m, f) == 0
    decreases |m.Keys|
  {
    if m.Keys != {} {
      var k :| k in m.Keys;
      assert (m - {k}).Keys == m.Keys - {k};
      SumZero(m - {k}, f);
      SumRemove(m, k, f);
    }
  }

  /** The loop behind `.map(..).sum()` over a hash map. */
  method SumValues<K, V>(m: map<K, V>, f: V -> nat) returns (total: nat)
    ensures total == Sum(m, f)
  {
    total := 0;
    var rest := m;
    while rest.Keys != {}
      invariant total + Sum(rest, f) == Sum(m, f)
      decreases |rest.Keys|
    {
      var k :| k in rest.Keys;
      SumRemove(rest, k, f);
      assert (rest - {k}).Keys == rest.Keys - {k};
      total := total + f(rest[k]);
      rest := rest - {k};
    }
  }
}
