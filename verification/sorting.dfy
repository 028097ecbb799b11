/** Sorting by any total order, and the order of texts. */
module Sorting {
  ghost predicate TotalOrder<T(!new)>(below: (T, T) -> bool) {
    && (forall x, y :: below(x, y) || below(y, x))
    && (forall x, y, z :: below(x, y) && below(y, z) ==> below(x, z))
  }

  predicate Ordered<T>(s: seq<T>, below: (T, T) -> bool) {
    forall i, j :: 0 <= i < j < |s| ==> below(s[i], s[j])
  }

  function Insert<T>(x: T, s: seq<T>, below: (T, T) -> bool): (r: seq<T>)
    ensures multiset(r) == multiset(s) + multiset{x}
  {
    if s == [] then [x]
    else if below(x, s[0]) then [x] + s
    else
      assert s == [s[0]] + s[1..];
      [s[0]] + Insert(x, s[1..], below)
  }

  /** A permutation of the sequence, in order. */
  function SortBy<T>(s: seq<T>, below: (T, T) -> bool): (r: seq<T>)
    ensures multiset(r) == multiset(s)
  {
    if s == [] then []
    else
      assert s == [s[0]] + s[1..];
      Insert(s[0], SortBy(s[1..], below), below)
  }

  lemma SameMembers<T>(a: seq<T>, b: seq<T>)
    requires multiset(a) == multiset(b)
    ensures forall x :: x in a <==> x in b
    ensures |a| == |b|
  {
    assert forall x :: x in a <==> x in multiset(a);
    assert forall x :: x in b <==> x in multiset(b);
    assert |multiset(a)| == |a| && |multiset(b)| == |b|;
  }

  lemma {:induction false} InsertOrders<T(!new)>(x: T, s: seq<T>, below: (T, T) -> bool)
    requires TotalOrder(below) && Ordered(s, below)
    ensures Ordered(Insert(x, s, below), below)
    decreases |s|
  {
    if s != [] && !below(x, s[0]) {
      var rest := Insert(x, s[1..], below);
      InsertOrders(x, s[1..], below);
      forall j | 0 <= j < |rest|
        ensures below(s[0], rest[j])
      {
        assert rest[j] in multiset(rest);
        assert rest[j] == x || rest[j] in s[1..];
      }
    }
  }

  lemma {:induction false} SortOrders<T(!new)>(s: seq<T>, below: (T, T) -> bool)
    requires TotalOrder(below)
    ensures Ordered(SortBy(s, below), below)
    decreases |s|
  {
    if s != [] {
      SortOrders(s[1..], below);
      InsertOrders(s[0], SortBy(s[1..], below), below);
    }
  }

  /** The order of a dictionary, character by character. */
  predicate Below(a: string, b: string) {
    a == "" || (b != "" && (a[0] < b[0] || (a[0] == b[0] && Below(a[1..], b[1..]))))
  }

  lemma {:induction false} BelowOneWay(a: string, b: string)
    ensures Below(a, b) || Below(b, a)
    ensures Below(a, b) && Below(b, a) ==> a == b
    decreases |a|
  {
    if a != "" && b != "" {
      BelowOneWay(a[1..], b[1..]);
      assert a == [a[0]] + a[1..] && b == [b[0]] + b[1..];
    }
  }

  lemma {:induction false} BelowCarries(a: string, b: string, c: string)
    requires Below(a, b) && Below(b, c)
    ensures Below(a, c)
    decreases |a|
  {
    if a != "" && a[0] == b[0] == c[0] {
      BelowCarries(a[1..], b[1..], c[1..]);
    }
  }

  lemma BelowIsTotal()
    ensures TotalOrder(Below)
  {
    forall a, b
      ensures Below(a, b) || Below(b, a)
    {
      BelowOneWay(a, b);
    }
    forall a, b, c | Below(a, b) && Below(b, c)
      ensures Below(a, c)
    {
      BelowCarries(a, b, c);
    }
  }

  /** A list of the members of a set has none of them twice. */
  lemma MembersOnce<T>(s: seq<T>, members: set<T>)
    requires multiset(s) == multiset(members)
    ensures |s| == |members| && (forall x :: x in s <==> x in members)
    ensures forall i, j :: 0 <= i < j < |s| ==> s[i] != s[j]
  {
    assert forall x :: x in s <==> x in multiset(s);
    assert |multiset(s)| == |s| && |multiset(members)| == |members|;
    forall i, j | 0 <= i < j < |s|
      ensures s[i] != s[j]
    {
      assert s == s[..j] + [s[j]] + s[j + 1..];
      assert s[i] in s[..j];
      assert multiset(s)[s[j]] <= 1;
    }
  }
}
