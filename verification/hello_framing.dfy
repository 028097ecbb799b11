/** Which handshake bodies the ClientHello parser accepts: exactly those with the framing of section 4.1.2 of RFC 8446,
    whatever the extensions hold. */
module HelloFraming {
  import opened Bytes
  import opened ClientHello
  import HelloCodec

  /** The parts of a ClientHello between their length fields. Up to three bytes can be left over after the last
      extension, and anything may follow the extensions. */
  datatype Frame = Frame(
    version: u16,
    random: seq<byte>,
    session: seq<byte>,
    ciphers: seq<byte>,
    compression: seq<byte>,
    tail: Tail)

  datatype Tail = NoExtensions | Extensions(block: seq<(u16, seq<byte>)>, left: seq<byte>, trailing: seq<byte>)

  ghost predicate FitsBlock(block: seq<(u16, seq<byte>)>) {
    forall i :: 0 <= i < |block| ==> |block[i].1| < 65536
  }

  function PutBlock(block: seq<(u16, seq<byte>)>): seq<byte>
    requires FitsBlock(block)
  {
    if block == [] then []
    else Put16(block[0].0) + (HelloCodec.Vector16(block[0].1) + PutBlock(block[1..]))
  }

  ghost predicate WellFramedTail(t: Tail) {
    t.Extensions? ==> FitsBlock(t.block) && |t.left| < 4 && |PutBlock(t.block) + t.left| < 65536
  }

  function PutTail(t: Tail): seq<byte>
    requires WellFramedTail(t)
  {
    if t.NoExtensions? then [] else HelloCodec.Vector16(PutBlock(t.block) + t.left) + t.trailing
  }

  ghost predicate WellFramed(f: Frame) {
    && |f.random| == 32 && |f.session| < 256 && |f.ciphers| < 65536 && |f.ciphers| % 2 == 0 && |f.compression| < 256
    && WellFramedTail(f.tail)
  }

  function Put(f: Frame): seq<byte>
    requires WellFramed(f)
  {
    Put16(f.version) + f.random
    + (HelloCodec.Vector8(f.session) + (HelloCodec.Vector16(f.ciphers) + (HelloCodec.Vector8(f.compression) +
                                                                          PutTail(f.tail))))
  }

  // ---------------------------------------------------------------------
  // Vectors.

  lemma After8(s: seq<byte>, rest: seq<byte>)
    requires |s| < 256
    ensures var m := HelloCodec.Vector8(s) + rest;
            |m| >= 1 + |s| && m[0] == |s| && m[1..1 + |s|] == s && m[1 + |s|..] == rest
  {
  }

  lemma After16(s: seq<byte>, rest: seq<byte>)
    requires |s| < 65536
    ensures var m := HelloCodec.Vector16(s) + rest;
            |m| >= 2 + |s| && U16(m[0], m[1]) == |s| && m[2..2 + |s|] == s && m[2 + |s|..] == rest
  {
  }

  lemma Is8(m: seq<byte>, n: nat)
    requires |m| >= 1 + n && m[0] == n
    ensures m == HelloCodec.Vector8(m[1..1 + n]) + m[1 + n..]
  {
  }

  lemma PairIs(hi: byte, lo: byte)
    ensures Put16(U16(hi, lo)) == [hi, lo]
  {
  }

  lemma Is16(m: seq<byte>, n: nat)
    requires |m| >= 2 + n && U16(m[0], m[1]) == n
    ensures m == HelloCodec.Vector16(m[2..2 + n]) + m[2 + n..]
  {
    PairIs(m[0], m[1]);
  }

  // ---------------------------------------------------------------------
  // Extensions.

  lemma FirstExtension(block: seq<(u16, seq<byte>)>, left: seq<byte>)
    requires FitsBlock(block) && block != []
    ensures var m, n := PutBlock(block) + left, |block[0].1|;
            && |m| >= 4 + n && U16(m[0], m[1]) == block[0].0 && U16(m[2], m[3]) == n
            && m[4 + n..] == PutBlock(block[1..]) + left
  {
    var kind, body, rest := Put16(block[0].0), HelloCodec.Vector16(block[0].1), PutBlock(block[1..]);
    var m := PutBlock(block) + left;
    Associative(kind, body + rest, left);
    Associative(body, rest, left);
    HeadAndRest(kind, body + (rest + left));
    After16(block[0].1, rest + left);
    assert m[2..] == body + (rest + left);
    assert m[2] == m[2..][0] && m[3] == m[2..][1];
    assert m[4 + |block[0].1|..] == m[2..][2 + |block[0].1|..];
  }

  /** Every block of extensions is accepted, whatever the extensions hold. */
  lemma {:induction false} BlockIsParsed(block: seq<(u16, seq<byte>)>, left: seq<byte>, h: Hello)
    requires FitsBlock(block) && |left| < 4
    ensures ParseExtensions(PutBlock(block) + left, h).Ok?
    decreases |block|
  {
    if block == [] {
      assert [] + left == left;
    } else {
      var m, n := PutBlock(block) + left, |block[0].1|;
      FirstExtension(block, left);
      BlockIsParsed(block[1..], left, AddExtension(h, block[0].0, m[4..4 + n]));
    }
  }

  lemma BlockGrows(m: seq<byte>, n: nat, block: seq<(u16, seq<byte>)>, left: seq<byte>)
    requires |m| >= 4 + n && U16(m[2], m[3]) == n && FitsBlock(block) && m[4 + n..] == PutBlock(block) + left
    ensures var all := [(U16(m[0], m[1]), m[4..4 + n])] + block;
            FitsBlock(all) && m == PutBlock(all) + left
  {
    var first := (U16(m[0], m[1]), m[4..4 + n]);
    var all := [first] + block;
    assert all[1..] == block;
    var kind, body, rest := Put16(first.0), HelloCodec.Vector16(first.1), PutBlock(block);
    PairIs(m[0], m[1]);
    Is16(m[2..], n);
    assert m[2..][2..2 + n] == m[4..4 + n] && m[2..][2 + n..] == m[4 + n..];
    assert m == m[..2] + m[2..] && m[..2] == kind;
    Associative(kind, body + rest, left);
    Associative(body, rest, left);
  }

  /** And only such a block is. */
  lemma {:induction false} ParsedIsBlock(m: seq<byte>, h: Hello)
    returns (block: seq<(u16, seq<byte>)>, left: seq<byte>)
    requires ParseExtensions(m, h).Ok?
    ensures FitsBlock(block) && |left| < 4 && m == PutBlock(block) + left
    decreases |m|
  {
    if |m| < 4 {
      block, left := [], m;
      assert [] + m == m;
    } else {
      var n: int := U16(m[2], m[3]);
      var more;
      more, left := ParsedIsBlock(m[4 + n..], AddExtension(h, U16(m[0], m[1]), m[4..4 + n]));
      BlockGrows(m, n, more, left);
      block := [(U16(m[0], m[1]), m[4..4 + n])] + more;
    }
  }

  // ---------------------------------------------------------------------
  // The parts before them.

  lemma TailIsParsed(t: Tail, h: Hello)
    requires WellFramedTail(t)
    ensures ParseTail(PutTail(t), h).Ok?
  {
    if t.Extensions? {
      After16(PutBlock(t.block) + t.left, t.trailing);
      BlockIsParsed(t.block, t.left, h);
    }
  }

  lemma ParsedIsTail(m: seq<byte>, h: Hello) returns (t: Tail)
    requires ParseTail(m, h).Ok?
    ensures WellFramedTail(t) && m == PutTail(t)
  {
    if m == [] {
      t := NoExtensions;
    } else {
      var n: int := U16(m[0], m[1]);
      var block, left := ParsedIsBlock(m[2..2 + n], h);
      t := Extensions(block, left, m[2 + n..]);
      Is16(m, n);
    }
  }

  lemma FrameIsParsed(f: Frame)
    requires WellFramed(f)
    ensures ParseBody(Put(f)).Ok?
  {
    var tail := PutTail(f.tail);
    var compression := HelloCodec.Vector8(f.compression) + tail;
    var ciphers := HelloCodec.Vector16(f.ciphers) + compression;
    var session := HelloCodec.Vector8(f.session) + ciphers;
    var m := Put(f);
    assert m[34..] == session && m[0] == Put16(f.version)[0] && m[1] == Put16(f.version)[1];
    After8(f.session, ciphers);
    After16(f.ciphers, compression);
    After8(f.compression, tail);
    var h := Blank(U16(m[0], m[1]));
    TailIsParsed(f.tail, h.(cipherSuites := Pairs(f.ciphers)));
  }

  lemma ParsedIsCompression(m: seq<byte>, h: Hello) returns (compression: seq<byte>, t: Tail)
    requires ParseCompression(m, h).Ok?
    ensures |compression| < 256 && WellFramedTail(t) && m == HelloCodec.Vector8(compression) + PutTail(t)
  {
    var n: int := m[0];
    t := ParsedIsTail(m[1 + n..], h);
    compression := m[1..1 + n];
    Is8(m, n);
  }

  lemma ParsedIsCiphers(m: seq<byte>, h: Hello) returns (ciphers: seq<byte>, compression: seq<byte>, t: Tail)
    requires ParseCiphers(m, h).Ok?
    ensures |ciphers| < 65536 && |ciphers| % 2 == 0 && |compression| < 256 && WellFramedTail(t)
    ensures m == HelloCodec.Vector16(ciphers) + (HelloCodec.Vector8(compression) + PutTail(t))
  {
    var n: int := U16(m[0], m[1]);
    ciphers := m[2..2 + n];
    compression, t := ParsedIsCompression(m[2 + n..], h.(cipherSuites := Pairs(ciphers)));
    Is16(m, n);
  }

  lemma ParsedIsSession(m: seq<byte>, h: Hello)
    returns (session: seq<byte>, ciphers: seq<byte>, compression: seq<byte>, t: Tail)
    requires ParseSessionId(m, h).Ok?
    ensures |session| < 256 && |ciphers| < 65536 && |ciphers| % 2 == 0 && |compression| < 256 && WellFramedTail(t)
    ensures m == HelloCodec.Vector8(session) + (HelloCodec.Vector16(ciphers) + (HelloCodec.Vector8(compression) +
                                                                              PutTail(t)))
  {
    var n: int := m[0];
    session := m[1..1 + n];
    ciphers, compression, t := ParsedIsCiphers(m[1 + n..], h);
    Is8(m, n);
  }

  lemma ParsedIsFrame(m: seq<byte>) returns (f: Frame)
    requires ParseBody(m).Ok?
    ensures WellFramed(f) && m == Put(f)
  {
    var session, ciphers, compression, t := ParsedIsSession(m[34..], Blank(U16(m[0], m[1])));
    f := Frame(U16(m[0], m[1]), m[2..34], session, ciphers, compression, t);
    PairIs(m[0], m[1]);
    FirstParts(m);
  }

  lemma FirstParts(m: seq<byte>)
    requires |m| >= 34
    ensures m == [m[0], m[1]] + m[2..34] + m[34..]
  {
  }

  /** A message is accepted exactly when it is a handshake record's first message, of type ClientHello, is all there,
      and has the framing of a ClientHello. */
  lemma ParsesExactlyWhen(data: seq<byte>)
    ensures Parse(data).Ok? <==>
            && |data| >= 9 && data[0] == 0x16 && data[5] == 1
            && var n := U24(data[6], data[7], data[8]);
               |data| >= 9 + n && exists f :: WellFramed(f) && data[9..9 + n] == Put(f)
  {
    if |data| >= 9 && data[0] == 0x16 && data[5] == 1 && |data| >= 9 + U24(data[6], data[7], data[8]) {
      var m := data[9..9 + U24(data[6], data[7], data[8])];
      if ParseBody(m).Ok? {
        var f := ParsedIsFrame(m);
      }
      forall f | WellFramed(f) && m == Put(f)
        ensures ParseBody(m).Ok?
      {
        FrameIsParsed(f);
      }
    }
  }
}
