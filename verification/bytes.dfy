/** Bytes, big-endian integers and the limits that the TLS and SMTP code share. */
module Bytes {
  type byte = x: int | 0 <= x < 256
  type u16 = x: int | 0 <= x < 65536

  const LF: byte := 10
  const CR: byte := 13

  /** The TLS record type of handshake data. */
  const HANDSHAKE: byte := 0x16

  /** The largest TLS record body that is read. */
  const MAX_RECORD_BODY := 18 * 1024

  /** The largest reassembled ClientHello, and the largest SMTP line buffer. */
  const MAX_CLIENT_HELLO := 64 * 1024

  datatype Option<+T> = None | Some(value: T)

  datatype Result<+T, +E> = Ok(value: T) | Err(error: E)

  function Max(a: int, b: int): int {
    if a < b then b else a
  }

  function Min(a: int, b: int): int {
    if a < b then a else b
  }

  function U16(hi: byte, lo: byte): u16 {
    hi * 256 + lo
  }

  function U24(hi: byte, mid: byte, lo: byte): nat {
    hi * 65536 + mid * 256 + lo
  }

  /** Two bytes, most significant first. */
  function Put16(n: int): (s: seq<byte>)
    requires 0 <= n < 65536
    ensures |s| == 2 && U16(s[0], s[1]) == n
  {
    [n / 256, n % 256]
  }

  /** Three bytes, most significant first. */
  function Put24(n: int): (s: seq<byte>)
    requires 0 <= n < 0x1_000000
    ensures |s| == 3 && U24(s[0], s[1], s[2]) == n
  {
    [n / 65536, n / 256 % 256, n % 256]
  }

  /** The first position of `b` in `s`, or -1. */
  function IndexOf(s: seq<byte>, b: byte): (i: int)
    ensures -1 <= i < |s|
    ensures 0 <= i ==> s[i] == b && b !in s[..i]
    ensures i < 0 ==> b !in s
  {
    if s == [] then -1
    else if s[0] == b then 0
    else
      var i := IndexOf(s[1..], b);
      if i < 0 then -1
      else
        assert s[..i + 1] == [s[0]] + s[1..][..i];
        i + 1
  }

  lemma {:induction false} IndexIs(before: seq<byte>, b: byte, after: seq<byte>)
    requires b !in before
    ensures IndexOf(before + [b] + after, b) == |before|
    decreases |before|
  {
    if before != [] {
      IndexIs(before[1..], b, after);
      assert (before + [b] + after)[1..] == before[1..] + [b] + after;
    }
  }

  lemma SliceOfSlice<T>(s: seq<T>, a: nat, b: nat, c: nat, d: nat)
    requires a <= b <= |s| && c <= d <= b - a
    ensures s[a..b][c..d] == s[a + c..a + d]
  {
    var t := s[a..b];
    forall i | 0 <= i < d - c
      ensures t[c..d][i] == s[a + c..a + d][i]
    {
      assert t[c..d][i] == t[c + i] == s[a + c + i];
    }
  }

  lemma Associative<T>(a: seq<T>, b: seq<T>, c: seq<T>)
    ensures a + b + c == a + (b + c)
  {
  }

  lemma Regroup<T>(a: seq<T>, b: seq<T>, c: seq<T>, d: seq<T>)
    ensures a + (b + (c + d)) == a + b + c + d
  {
  }

  /** One more element of a prefix. */
  lemma PrefixNext<T>(s: seq<T>, i: nat)
    requires i < |s|
    ensures s[..i + 1] == s[..i] + [s[i]]
    ensures s[..i + 1][..i] == s[..i]
  {
  }

  lemma PrefixAll<T>(s: seq<T>)
    ensures s[..|s|] == s
  {
  }

  lemma PrefixOfSnoc<T>(s: seq<T>, e: T)
    ensures (s + [e])[..|s|] == s
  {
  }

  lemma FromStart<T>(s: seq<T>)
    ensures s[0..] == s
    ensures forall n :: 0 <= n <= |s| ==> s[0..n] == s[..n]
  {
  }

  lemma PlusNothing<T>(s: seq<T>)
    ensures s + [] == s && [] + s == s
  {
  }

  lemma SliceTail<T>(s: seq<T>, a: nat, b: nat, c: nat)
    requires a + c <= b <= |s|
    ensures s[a..b][c..] == s[a + c..b]
  {
  }

  lemma TailOfTail<T>(s: seq<T>, a: nat, c: nat, d: nat)
    requires a + c <= a + d <= |s|
    ensures s[a..][c..d] == s[a + c..a + d] && s[a..][d..] == s[a + d..]
  {
  }

  lemma CutAt<T>(s: seq<T>, n: nat)
    requires n <= |s|
    ensures s == s[..n] + s[n..]
  {
  }

  /** A prefix cut in three. */
  lemma CutTwice<T>(s: seq<T>, a: nat, b: nat, c: nat)
    requires a + b + c <= |s|
    ensures s[..a + b + c] == s[..a] + (s[a..][..b] + s[a..][b..][..c])
  {
  }

  lemma HeadAndRest<T>(head: seq<T>, rest: seq<T>)
    ensures (head + rest)[..|head|] == head && (head + rest)[|head|..] == rest
  {
  }
}
