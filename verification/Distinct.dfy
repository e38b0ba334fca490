/** Sequences without repetition. */
module Distinct {
  predicate NoRepeats<T(==)>(s: seq<T>) {
    forall i, j :: 0 <= i < j < |s| ==> s[i] != s[j]
  }

  lemma {:induction false} FewerThanListed<T>(s: seq<T>, all: set<T>)
    requires forall x :: x in all ==> x in s
    ensures |all| <= |s|
    decreases |s|
  {
    if s == [] {
      assert all == {};
    } else {
      assert s == [s[0]] + s[1..];
      FewerThanListed(s[1..], all - {s[0]});
      assert all <= (all - {s[0]}) + {s[0]};
    }
  }

  /** A listing as long as its set lists everything once. */
  lemma {:induction false} ListedOnce<T>(s: seq<T>, all: set<T>)
    requires |s| == |all| && forall x :: x in all <==> x in s
    ensures NoRepeats(s)
    decreases |s|
  {
    if s != [] {
      var k, rest := s[0], s[1..];
      assert s == [k] + rest;
      if k in rest {
        FewerThanListed(rest, all);
        assert false;
      }
      forall x ensures x in all - {k} <==> x in rest { assert x in all <==> x in s; }
      ListedOnce(rest, all - {k});
      forall i, j | 0 <= i < j < |s| ensures s[i] != s[j] {
        assert s[j] == rest[j - 1];
        if i > 0 { assert s[i] == rest[i - 1]; }
      }
    }
  }

  lemma {:induction false} CountOfDistinct<T>(s: seq<T>) returns (all: set<T>)
    requires NoRepeats(s)
    ensures |all| == |s| && forall x :: x in all <==> x in s
    decreases |s|
  {
    if s == [] {
      all := {};
    } else {
      assert s == [s[0]] + s[1..];
      assert s[0] !in s[1..];
      all := CountOfDistinct(s[1..]);
      all := all + {s[0]};
    }
  }

  /** Reordering repeats nothing. */
  lemma PermutationKeepsDistinct<T>(a: seq<T>, b: seq<T>)
    requires NoRepeats(a) && multiset(a) == multiset(b)
    ensures NoRepeats(b) && |a| == |b| && forall x :: x in a <==> x in b
  {
    assert |multiset(a)| == |a| && |multiset(b)| == |b|;
    assert forall x :: x in a <==> x in multiset(a);
    assert forall x :: x in b <==> x in multiset(b);
    var all := CountOfDistinct(a);
    ListedOnce(b, all);
  }

  lemma ConcatDistinct<T>(a: seq<T>, b: seq<T>)
    requires NoRepeats(a) && NoRepeats(b) && forall x :: x in a ==> x !in b
    ensures NoRepeats(a + b)
  {
    forall i, j | 0 <= i < j < |a + b| ensures (a + b)[i] != (a + b)[j] {
      if i < |a| <= j { assert a[i] in a && b[j - |a|] in b; }
    }
  }
}
