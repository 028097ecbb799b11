/** Which bytes the reassembler accepts, refuses or waits for, told from the records that they begin with. */
module RecordVerdicts {
  import opened Bytes
  import opened Records

  /** The length that a handshake header declares for its whole message. */
  function Declared(p: seq<byte>): nat
    requires |p| >= 4
  {
    var high: int, middle: int, low: int := p[1], p[2], p[3];
    4 + 65536 * high + 256 * middle + low
  }

  /** A handshake message that has begun and is not whole, and is not declared too long. */
  predicate Undecided(p: seq<byte>) {
    |p| < 4 || (Declared(p) <= 65536 && |p| < Declared(p))
  }

  predicate Whole(p: seq<byte>) {
    |p| >= 4 && Declared(p) <= 65536 && |p| >= Declared(p)
  }

  predicate TooLong(p: seq<byte>) {
    |p| >= 4 && Declared(p) > 65536
  }

  /** What the next bytes after whole records mean for a message that is not whole. */
  predicate NextMeans(verdict: Assembly, rest: seq<byte>) {
    if |rest| < 5 then verdict == Incomplete
    else if rest[0] != 0x16 then verdict == Rejected(NotHandshake)
    else
      var high: int, low: int := rest[3], rest[4];
      var n := 256 * high + low;
      if n == 0 || n > 18 * 1024 then verdict == Rejected(BadRecord)
      else |rest| < 5 + n && verdict == Incomplete
  }

  predicate VerdictOn(verdict: Assembly, payload: seq<byte>, rest: seq<byte>) {
    && (TooLong(payload) ==> verdict == Rejected(TooLarge))
    && (Whole(payload) ==> verdict == Assembled(payload))
    && (Undecided(payload) ==> NextMeans(verdict, rest))
  }

  lemma JudgeMeans(p: seq<byte>)
    ensures Judge(p) == Incomplete <==> Undecided(p)
    ensures Judge(p) == Rejected(TooLarge) <==> TooLong(p)
    ensures Judge(p) == Assembled(p) <==> Whole(p)
    ensures Undecided(p) || TooLong(p) || Whole(p)
  {
  }

  lemma HeaderIs(raw: seq<byte>, n: nat)
    requires |raw| >= 5 && BodyLength(raw) == Ok(n)
    ensures 0 < n <= MAX_RECORD_BODY && raw[..5] == [HANDSHAKE, raw[1], raw[2]] + Put16(n)
  {
    assert Put16(n) == [raw[3], raw[4]];
  }

  lemma ThreeParts(raw: seq<byte>, n: nat)
    requires |raw| >= 5 + n
    ensures raw == raw[..5] + raw[5..5 + n] + raw[5 + n..]
  {
  }

  lemma FirstIsRecord(raw: seq<byte>, n: nat)
    requires |raw| >= 5 + n && BodyLength(raw) == Ok(n)
    ensures 0 < n <= MAX_RECORD_BODY
    ensures raw == Record((raw[1], raw[2]), raw[5..5 + n]) + raw[5 + n..]
  {
    HeaderIs(raw, n);
    ThreeParts(raw, n);
  }

  // ---------------------------------------------------------------------
  // Cutting off the records.

  type Fragment = ((byte, byte), seq<byte>)

  predicate HasRecord(raw: seq<byte>) {
    |raw| >= 5 && BodyLength(raw).Ok? && |raw| - 5 >= BodyLength(raw).value
  }

  function First(raw: seq<byte>): (f: Fragment)
    requires HasRecord(raw)
    ensures 0 < |f.1| <= MAX_RECORD_BODY && |raw| >= 5 + |f.1|
  {
    ((raw[1], raw[2]), raw[5..5 + BodyLength(raw).value])
  }

  /** The records up to the one that decides on the message, when `bodies` were collected. */
  function Taken(raw: seq<byte>, bodies: seq<byte>): (fragments: seq<Fragment>)
    ensures Fragments(fragments)
    decreases |raw|
  {
    if !HasRecord(raw) then []
    else
      var f := First(raw);
      [f] + if Undecided(bodies + f.1) then Taken(raw[5 + |f.1|..], bodies + f.1) else []
  }

  /** The bytes after them. */
  function Left(raw: seq<byte>, bodies: seq<byte>): seq<byte>
    decreases |raw|
  {
    if !HasRecord(raw) then raw
    else
      var f := First(raw);
      if Undecided(bodies + f.1) then Left(raw[5 + |f.1|..], bodies + f.1) else raw[5 + |f.1|..]
  }

  lemma OneRecord(fragment: Fragment, more: seq<Fragment>)
    requires 0 < |fragment.1| <= MAX_RECORD_BODY && Fragments(more)
    ensures Fragments([fragment] + more)
    ensures Stream([fragment] + more) == Record(fragment.0, fragment.1) + Stream(more)
  {
    assert ([fragment] + more)[1..] == more;
  }

  lemma JoinFirst(raw: seq<byte>, more: seq<Fragment>, rest: seq<byte>)
    requires HasRecord(raw) && Fragments(more) && raw[5 + |First(raw).1|..] == Stream(more) + rest
    ensures Fragments([First(raw)] + more) && raw == Stream([First(raw)] + more) + rest
  {
    var f := First(raw);
    FirstIsRecord(raw, |f.1|);
    OneRecord(f, more);
    Associative(Record(f.0, f.1), Stream(more), rest);
  }

  /** The buffer is those records and what is left. */
  lemma {:induction false} TakenAndLeft(raw: seq<byte>, bodies: seq<byte>)
    ensures raw == Stream(Taken(raw, bodies)) + Left(raw, bodies)
    decreases |raw|
  {
    if HasRecord(raw) {
      var f := First(raw);
      var tail, collected := raw[5 + |f.1|..], bodies + f.1;
      if Undecided(collected) {
        TakenAndLeft(tail, collected);
        JoinFirst(raw, Taken(tail, collected), Left(tail, collected));
      } else {
        assert Stream([]) + tail == tail;
        JoinFirst(raw, [], tail);
        assert [f] + [] == [f];
      }
    } else {
      assert Stream([]) + raw == raw;
    }
  }

  lemma MorePayload(bodies: seq<byte>, fragment: Fragment, more: seq<Fragment>)
    ensures bodies + Payload([fragment] + more) == bodies + fragment.1 + Payload(more)
  {
    assert ([fragment] + more)[1..] == more;
    Associative(bodies, fragment.1, Payload(more));
  }

  /** The message was not whole, nor too long, before any of the records. */
  ghost predicate UndecidedBefore(bodies: seq<byte>, fragments: seq<Fragment>) {
    forall i :: 0 <= i < |fragments| ==> Undecided(bodies + Payload(fragments[..i]))
  }

  lemma UndecidedLonger(bodies: seq<byte>, fragment: Fragment, more: seq<Fragment>)
    requires Undecided(bodies) && UndecidedBefore(bodies + fragment.1, more)
    ensures UndecidedBefore(bodies, [fragment] + more)
  {
    var all := [fragment] + more;
    forall i | 0 <= i < |all|
      ensures Undecided(bodies + Payload(all[..i]))
    {
      if i == 0 {
        PlusNothing(bodies);
      } else {
        assert all[..i] == [fragment] + more[..i - 1];
        MorePayload(bodies, fragment, more[..i - 1]);
      }
    }
  }

  /** No record is taken after the one that decides. */
  lemma {:induction false} TakenWhileUndecided(raw: seq<byte>, bodies: seq<byte>)
    requires Undecided(bodies)
    ensures UndecidedBefore(bodies, Taken(raw, bodies))
    decreases |raw|
  {
    if HasRecord(raw) {
      var f := First(raw);
      if Undecided(bodies + f.1) {
        TakenWhileUndecided(raw[5 + |f.1|..], bodies + f.1);
        UndecidedLonger(bodies, f, Taken(raw[5 + |f.1|..], bodies + f.1));
      } else {
        UndecidedLonger(bodies, f, []);
      }
    }
  }

  lemma WithoutRecord(raw: seq<byte>, bodies: seq<byte>)
    requires Undecided(bodies) && !HasRecord(raw)
    ensures VerdictOn(Walk(raw, bodies), bodies, raw)
  {
  }

  lemma AfterRecord(raw: seq<byte>, bodies: seq<byte>)
    requires HasRecord(raw)
    ensures var f := First(raw);
            if Undecided(bodies + f.1) then Walk(raw, bodies) == Walk(raw[5 + |f.1|..], bodies + f.1)
            else VerdictOn(Walk(raw, bodies), bodies + f.1, raw[5 + |f.1|..])
  {
    JudgeMeans(bodies + First(raw).1);
  }

  /** The walk's verdict is that on the payload of the records, and on the bytes after them. */
  lemma {:induction false} WalkDecides(raw: seq<byte>, bodies: seq<byte>)
    requires Undecided(bodies)
    ensures VerdictOn(Walk(raw, bodies), bodies + Payload(Taken(raw, bodies)), Left(raw, bodies))
    decreases |raw|
  {
    if HasRecord(raw) {
      var f := First(raw);
      AfterRecord(raw, bodies);
      if Undecided(bodies + f.1) {
        WalkDecides(raw[5 + |f.1|..], bodies + f.1);
        MorePayload(bodies, f, Taken(raw[5 + |f.1|..], bodies + f.1));
      } else {
        MorePayload(bodies, f, []);
        PlusNothing(bodies + f.1);
      }
    } else {
      PlusNothing(bodies);
      WithoutRecord(raw, bodies);
    }
  }

  /** The answer for every buffer: it is cut into the records up to the one that decides, and the bytes after them. A
      declared length over 64 KiB is refused, a whole message is accepted behind the first record header, and while the
      message is neither, the next header decides: it must be that of a handshake record of 1 to 18 KiB, and is waited
      for with its body. */
  lemma FromBytesMeans(raw: seq<byte>) returns (fragments: seq<Fragment>, rest: seq<byte>)
    ensures Fragments(fragments) && raw == Stream(fragments) + rest && UndecidedBefore([], fragments)
    ensures var payload := Payload(fragments);
            && (TooLong(payload) ==> FromBytes(raw) == Rejected(TooLarge))
            && (Whole(payload) ==> |raw| >= 5 && FromBytes(raw) == Assembled(raw[..5] + payload))
            && (Undecided(payload) ==> NextMeans(FromBytes(raw), rest))
  {
    fragments, rest := Taken(raw, []), Left(raw, []);
    TakenAndLeft(raw, []);
    TakenWhileUndecided(raw, []);
    WalkDecides(raw, []);
    assert [] + Payload(fragments) == Payload(fragments);
    if fragments != [] {
      FirstRecord(fragments);
    }
  }
}
