/** Small facts about sequences, sets and sums. */
module Collections {
  import opened Word32

  ghost predicate Distinct<T>(s: seq<T>) {
    forall i, j :: 0 <= i < j < |s| ==> s[i] != s[j]
  }

  function Elements<T>(s: seq<T>): set<T> {
    set x | x in s
  }

  /** A set's elements in some order. */
  lemma SomeOrder<T>(s: set<T>) returns (order: seq<T>)
    ensures Distinct(order) && forall x :: x in order <==> x in s
    decreases |s|
  {
    order := [];
    if s != {} {
      var x :| x in s;
      order := SomeOrder(s - {x});
      order := order + [x];
    }
  }

  lemma DistinctAppend<T>(s: seq<T>, t: seq<T>)
    requires Distinct(s) && Distinct(t) && forall x :: x in s ==> x !in t
    ensures Distinct(s + t)
  {
    forall i, j | 0 <= i < |s| <= j < |s + t|
      ensures (s + t)[i] != (s + t)[j]
    {
      assert (s + t)[i] in s && (s + t)[j] in t;
    }
  }

  lemma SubsetSize<T>(a: set<T>, b: set<T>)
    requires a <= b
    ensures |a| <= |b|
  {
    assert b == a + (b - a);
  }

  /** The sum of a map's values over some of its keys. */
  ghost function SumOver<K>(m: map<K, nat>, keys: set<K>): nat
    requires keys <= m.Keys
    decreases |keys|
  {
    if keys == {} then 0
    else var k :| k in keys; m[k] + SumOver(m, keys - {k})
  }

  /** Any key may be taken out first. */
  lemma {:induction false} SumSplits<K>(m: map<K, nat>, keys: set<K>, k: K)
    requires k in keys && keys <= m.Keys
    ensures SumOver(m, keys) == m[k] + SumOver(m, keys - {k})
    decreases |keys|
  {
    var first :| first in keys && SumOver(m, keys) == m[first] + SumOver(m, keys - {first});
    if first != k {
      SumSplits(m, keys - {first}, k);
      SumSplits(m, keys - {k}, first);
      assert keys - {first} - {k} == keys - {k} - {first};
    }
  }

  /** Maps that agree on the keys have the same sum over them. */
  lemma {:induction false} SameSum<K>(m: map<K, nat>, n: map<K, nat>, keys: set<K>)
    requires keys <= m.Keys && keys <= n.Keys && forall k :: k in keys ==> m[k] == n[k]
    ensures SumOver(m, keys) == SumOver(n, keys)
    decreases |keys|
  {
    if keys != {} {
      var k :| k in keys;
      SumSplits(m, keys, k);
      SumSplits(n, keys, k);
      SameSum(m, n, keys - {k});
    }
  }

  /** A set of words has a least one. */
  lemma Smallest(s: set<u32>) returns (m: u32)
    requires s != {}
    ensures m in s && forall x :: x in s ==> m <= x
    decreases |s|
  {
    m :| m in s;
    var rest := s - {m};
    assert s == rest + {m};
    if rest != {} {
      var low := Smallest(rest);
      if low < m { m := low; }
    }
  }
}
