/** Counters in maps, as the reports keep them. */
module Counting {
  /** The sum of all counters. */
  ghost function Total<K>(m: map<K, nat>): nat
    decreases |m|
  {
    if m == map[] then 0
    else
      var k :| k in m;
      m[k] + Total(m - {k})
  }

  lemma {:induction false} TotalWithout<K>(m: map<K, nat>, k: K)
    requires k in m
    ensures Total(m) == m[k] + Total(m - {k})
    decreases |m|
  {
    var j :| j in m && Total(m) == m[j] + Total(m - {j});
    if j != k {
      TotalWithout(m - {j}, k);
      TotalWithout(m - {k}, j);
      assert m - {j} - {k} == m - {k} - {j};
    }
  }

  lemma TotalAfter<K>(m: map<K, nat>, k: K, n: nat)
    ensures Total(m[k := n]) == Total(m) + n - if k in m then m[k] else 0
  {
    TotalWithout(m[k := n], k);
    assert m[k := n] - {k} == m - {k};
    if k in m {
      TotalWithout(m, k);
    } else {
      assert m - {k} == m;
    }
  }

  function Bump<K>(m: map<K, nat>, k: K): map<K, nat> {
    m[k := (if k in m then m[k] else 0) + 1]
  }

  /** How often each value occurs. */
  function Histogram<K>(s: seq<K>): map<K, nat> {
    if s == [] then map[] else Bump(Histogram(s[..|s| - 1]), s[|s| - 1])
  }

  /** The counters are those of the sequence, and add up to its length. */
  lemma {:induction false} HistogramCounts<K>(s: seq<K>)
    ensures forall k :: k in Histogram(s) <==> k in s
    ensures forall k :: k in Histogram(s) ==> Histogram(s)[k] == multiset(s)[k]
    ensures Total(Histogram(s)) == |s|
    decreases |s|
  {
    if s != [] {
      var before, last := s[..|s| - 1], s[|s| - 1];
      HistogramCounts(before);
      assert s == before + [last];
      TotalAfter(Histogram(before), last, (if last in before then Histogram(before)[last] else 0) + 1);
    }
  }
}
