/** Sums over finite maps and multisets, independent of any enumeration order. */
module Collections {

  ghost function PickKey<K, V>(m: map<K, V>): (k: K)
    requires m != map[]
    ensures k in m
  {
    var k :| k in m; k
  }

  ghost function MapSum<K, V>(m: map<K, V>, f: V -> nat): nat
    decreases |m|
  {
    if m == map[] then 0 else
      var k := PickKey(m);
      f(m[k]) + MapSum(m - {k}, f)
  }

  lemma {:induction false} MapSumRemove<K, V>(m: map<K, V>, f: V -> nat, k: K)
    requires k in m
    ensures MapSum(m, f) == f(m[k]) + MapSum(m - {k}, f)
    decreases |m|
  {
    var p := PickKey(m);
    if p != k {
      MapSumRemove(m - {p}, f, k);
      MapSumRemove(m - {k}, f, p);
      assert m - {p} - {k} == m - {k} - {p};
    }
  }

  /** Writing one entry replaces exactly that entry's contribution. */
  lemma MapSumUpdate<K, V>(m: map<K, V>, f: V -> nat, k: K, v: V)
    ensures MapSum(m[k := v], f) == f(v) + MapSum(m - {k}, f)
    ensures MapSum(m, f) == (if k in m then f(m[k]) else 0) + MapSum(m - {k}, f)
  {
    MapSumRemove(m[k := v], f, k);
    assert m[k := v] - {k} == m - {k};
    if k in m {
      MapSumRemove(m, f, k);
    } else {
      assert m - {k} == m;
    }
  }

  ghost function PickElem<T>(ms: multiset<T>): (x: T)
    requires ms != multiset{}
    ensures x in ms
  {
    var x :| x in ms; x
  }

  ghost function BagSum<T>(ms: multiset<T>, f: T -> nat): nat
    decreases |ms|
  {
    if ms == multiset{} then 0 else
      var x := PickElem(ms);
      f(x) + BagSum(ms - multiset{x}, f)
  }

  lemma {:induction false} BagSumRemove<T>(ms: multiset<T>, f: T -> nat, x: T)
    requires x in ms
    ensures BagSum(ms, f) == f(x) + BagSum(ms - multiset{x}, f)
    decreases |ms|
  {
    var p := PickElem(ms);
    if p != x {
      BagSumRemove(ms - multiset{p}, f, x);
      BagSumRemove(ms - multiset{x}, f, p);
      assert ms - multiset{p} - multiset{x} == ms - multiset{x} - multiset{p};
    }
  }

  lemma BagSumAdd<T>(ms: multiset<T>, f: T -> nat, x: T)
    ensures BagSum(ms + multiset{x}, f) == f(x) + BagSum(ms, f)
  {
    BagSumRemove(ms + multiset{x}, f, x);
    assert ms + multiset{x} - multiset{x} == ms;
  }

  lemma {:induction false} BagSumUnion<T>(a: multiset<T>, b: multiset<T>, f: T -> nat)
    ensures BagSum(a + b, f) == BagSum(a, f) + BagSum(b, f)
    decreases |b|
  {
    if b == multiset{} {
      assert a + b == a;
    } else {
      var x := PickElem(b);
      BagSumUnion(a, b - multiset{x}, f);
      BagSumAdd(a + (b - multiset{x}), f, x);
      assert a + (b - multiset{x}) + multiset{x} == a + b;
    }
  }

  /** The values of a map, as a bag. */
  ghost function ValueBag<K, V>(m: map<K, V>): multiset<V>
    decreases |m|
  {
    if m == map[] then multiset{} else
      var k := PickKey(m);
      multiset{m[k]} + ValueBag(m - {k})
  }

  lemma SwapFront<V>(a: V, b: V, rest: multiset<V>)
    ensures multiset{a} + (multiset{b} + rest) == multiset{b} + (multiset{a} + rest)
  {
  }

  lemma {:induction false} ValueBagRemove<K, V>(m: map<K, V>, k: K)
    requires k in m
    ensures ValueBag(m) == multiset{m[k]} + ValueBag(m - {k})
    decreases |m|
  {
    var p := PickKey(m);
    if p != k {
      var inner := m - {p} - {k};
      assert ValueBag(m - {p}) == multiset{m[k]} + ValueBag(inner) by {
        ValueBagRemove(m - {p}, k);
      }
      assert ValueBag(m - {k}) == multiset{m[p]} + ValueBag(inner) by {
        assert inner == m - {k} - {p};
        ValueBagRemove(m - {k}, p);
      }
      SwapFront(m[p], m[k], ValueBag(inner));
    }
  }

  lemma PutBack<K, V>(m: map<K, V>, k: K)
    requires k in m
    ensures (m - {k})[k := m[k]] == m
  {
  }

  lemma BagTail<T>(init: multiset<T>, all: multiset<T>, rest: multiset<T>, x: T)
    requires all == init + multiset{x} && all == multiset{x} + rest
    ensures init == rest
  {
    assert init == all - multiset{x} && rest == all - multiset{x};
  }

  lemma SeqLast<T>(s: seq<T>)
    requires s != []
    ensures multiset(s) == multiset(s[..|s| - 1]) + multiset{s[|s| - 1]}
  {
    assert s == s[..|s| - 1] + [s[|s| - 1]];
  }
}
