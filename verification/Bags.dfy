/** Counting references: the multiset of everything a table's rows point at. */
module Bags {
  ghost function Bag<K, N>(m: map<K, seq<N>>): multiset<N>
    decreases |m|
  {
    if |m| == 0 then multiset{}
    else
      var k :| k in m;
      multiset(m[k]) + Bag(m - {k})
  }

  lemma {:induction false} BagRemove<K, N>(m: map<K, seq<N>>, k: K)
    requires k in m
    ensures Bag(m) == multiset(m[k]) + Bag(m - {k})
    decreases |m|
  {
    var j :| j in m && Bag(m) == multiset(m[j]) + Bag(m - {j});
    if j != k {
      BagRemove(m - {j}, k);
      BagRemove(m - {k}, j);
      assert m - {j} - {k} == m - {k} - {j};
    }
  }

  lemma BagAdd<K, N>(m: map<K, seq<N>>, k: K, s: seq<N>)
    requires k !in m
    ensures Bag(m[k := s]) == Bag(m) + multiset(s)
  {
    BagRemove(m[k := s], k);
    assert m[k := s] - {k} == m;
  }

  lemma BagReplace<K, N>(m: map<K, seq<N>>, k: K, s: seq<N>)
    requires k in m
    ensures Bag(m[k := s]) + multiset(m[k]) == Bag(m) + multiset(s)
  {
    BagRemove(m, k);
    BagRemove(m[k := s], k);
    assert m[k := s] - {k} == m - {k};
  }

  /** Something is in the bag exactly when some row points at it. */
  lemma {:induction false} BagMember<K, N>(m: map<K, seq<N>>, n: N)
    ensures n in Bag(m) <==> exists k :: k in m && n in m[k]
    decreases |m|
  {
    if |m| > 0 {
      var k :| k in m && Bag(m) == multiset(m[k]) + Bag(m - {k});
      BagMember(m - {k}, n);
      if j :| j in m && n in m[j] {
        assert j == k || (j in m - {k} && n in (m - {k})[j]);
      }
      if j :| j in m - {k} && n in (m - {k})[j] {
        assert n in m[j];
      }
    }
  }

  lemma SwapAddends<N>(a: multiset<N>, x: multiset<N>, y: multiset<N>)
    ensures a + (x + y) == a + y + x
  {
  }

  lemma Cancel<N>(a: multiset<N>, b: multiset<N>, x: multiset<N>)
    requires a + x == b + x
    ensures a == b
  {
    assert a == a + x - x;
    assert b == b + x - x;
  }
}
