/** Reading command lines: words, numbers, and the BDAT commands that a dialogue can hold. */
module SmtpWords {
  import opened Bytes
  import opened SmtpLines
  import opened Text
  import FingerprintText
  import SmtpBehavior
  import SmtpDialogue

  predicate IsSpace(c: char) {
    c == ' ' || c == '\t' || c == '\n' || c == '\r' || c as int == 11 || c as int == 12
  }

  predicate IsWord(w: string) {
    w != "" && forall i :: 0 <= i < |w| ==> !IsSpace(w[i])
  }

  lemma {:induction false} WordLengthIs(w: string, rest: string)
    requires (forall i :: 0 <= i < |w| ==> !Space(w[i])) && (rest == "" || Space(rest[0]))
    ensures WordLength(w + rest) == |w|
    decreases |w|
  {
    if w == "" {
      assert w + rest == rest;
    } else {
      assert (w + rest)[0] == w[0] && (w + rest)[1..] == w[1..] + rest;
      WordLengthIs(w[1..], rest);
    }
  }

  /** Words are what stands between white space: leading space is skipped, and a word ends at the next space. */
  lemma WordsMean(w: string, c: char, rest: string)
    ensures Words("") == []
    ensures IsSpace(c) ==> Words([c] + rest) == Words(rest)
    ensures IsWord(w) && (rest == "" || IsSpace(rest[0])) ==> Words(w + rest) == [w] + Words(rest)
  {
    assert ([c] + rest)[1..] == rest;
    if IsWord(w) && (rest == "" || IsSpace(rest[0])) {
      WordLengthIs(w, rest);
      assert (w + rest)[0] == w[0] && (w + rest)[..|w|] == w && (w + rest)[|w|..] == rest;
    }
  }

  lemma PlainNumber(s: string, n: nat)
    requires DigitsValue(s) == Some(n) && '0' <= s[0] <= '9'
    ensures ParseInt32(s) == if n < 0x8000_0000 then Some(n) else None
  {
  }

  lemma SignedNumber(c: char, s: string, n: nat)
    requires DigitsValue(s) == Some(n) && (c == '-' || c == '+')
    ensures ParseInt32([c] + s).Some? <==> n < 0x8000_0000 || (c == '-' && n == 0x8000_0000)
    ensures ParseInt32([c] + s).Some? ==> ParseInt32([c] + s).value == if c == '-' then 0 - n else n
  {
    assert ([c] + s)[1..] == s;
  }

  /** Numbers are read back from their decimal form, with or without a sign, if they fit 32 bits. */
  lemma ParseInt32Reads(n: nat)
    ensures ParseInt32(Decimal(n)) == if n < 0x8000_0000 then Some(n) else None
    ensures ParseInt32(['+'] + Decimal(n)) == ParseInt32(Decimal(n))
    ensures ParseInt32(['-'] + Decimal(n)).Some? <==> n <= 0x8000_0000
    ensures n <= 0x8000_0000 ==> ParseInt32(['-'] + Decimal(n)).value + n == 0
  {
    FingerprintText.DecimalSpells(n);
    PlainNumber(Decimal(n), n);
    SignedNumber('+', Decimal(n), n);
    SignedNumber('-', Decimal(n), n);
  }

  function Ascii(s: string): (line: seq<byte>)
    requires forall i :: 0 <= i < |s| ==> s[i] as int < 128
    ensures |line| == |s|
  {
    seq(|s|, i requires 0 <= i < |s| => s[i] as int)
  }

  lemma AsciiChars(s: string)
    requires forall i :: 0 <= i < |s| ==> s[i] as int < 128
    ensures Chars(Ascii(s)) == s
  {
  }

  /** The line of a BDAT command, with or without LAST. */
  function BdatText(size: nat, last: bool): string {
    "BDAT" + [' '] + Decimal(size) + if last then " LAST" else ""
  }

  lemma Chain(x: seq<string>, y: seq<string>, z: seq<string>, v: string, w: string)
    requires x == [v] + y && y == [w] + z
    ensures x == [v, w] + z
  {
  }

  lemma TwoWords(v: string, w: string, rest: string, text: string)
    requires IsWord(v) && IsWord(w) && (rest == "" || IsSpace(rest[0])) && text == v + ([' '] + (w + rest))
    ensures Words(text) == [v, w] + Words(rest)
  {
    var tail := [' '] + (w + rest);
    WordThenRest(w, rest);
    SpaceSkipped(w + rest);
    WordThenRest(v, tail);
    Chain(Words(text), Words(tail), Words(rest), v, w);
  }

  lemma Regrouped(v: string, w: string, rest: string)
    ensures v + [' '] + w + rest == v + ([' '] + (w + rest))
  {
    Associative(v + [' '], w, rest);
    Associative(v, [' '], w + rest);
  }

  lemma WordThenRest(w: string, rest: string)
    requires IsWord(w) && (rest == "" || IsSpace(rest[0]))
    ensures Words(w + rest) == [w] + Words(rest)
  {
    WordsMean(w, ' ', rest);
  }

  lemma SpaceSkipped(s: string)
    ensures Words([' '] + s) == Words(s)
  {
    WordsMean("", ' ', s);
  }

  lemma LastWord()
    ensures Words(" LAST") == ["LAST"]
  {
    SpaceSkipped("LAST");
    WordsMean("LAST", ' ', "");
    assert [' '] + "LAST" == " LAST" && "LAST" + "" == "LAST";
  }

  lemma BdatWords(size: nat, last: bool)
    ensures Words(BdatText(size, last)) == ["BDAT", Decimal(size)] + if last then ["LAST"] else []
  {
    var end := if last then " LAST" else "";
    Regrouped("BDAT", Decimal(size), end);
    TwoWords("BDAT", Decimal(size), end, BdatText(size, last));
    LastWord();
  }

  lemma BdatIsAscii(size: nat, last: bool)
    ensures forall i :: 0 <= i < |BdatText(size, last)| ==> 32 <= BdatText(size, last)[i] as int < 127
  {
  }

  lemma {:induction false} DecimalIsShort(n: nat, digits: nat, bound: nat)
    requires n < bound && bound == Power(digits) && digits > 0
    ensures |Decimal(n)| <= digits
    decreases digits
  {
    if n >= 10 {
      assert digits > 1;
      DecimalIsShort(n / 10, digits - 1, Power(digits - 1));
    }
  }

  function Power(digits: nat): nat {
    if digits == 0 then 1 else 10 * Power(digits - 1)
  }

  /** A BDAT line announces exactly its payload: every such pair can be said in a dialogue. */
  lemma BdatIsChunk(payload: seq<byte>, last: bool)
    requires |payload| < 0x8000_0000
    ensures var text := BdatText(|payload|, last);
            && (forall i :: 0 <= i < |text| ==> text[i] as int < 128)
            && SmtpDialogue.GoodUnit(SmtpDialogue.Chunk(Ascii(text), payload))
  {
    var text := BdatText(|payload|, last);
    BdatIsAscii(|payload|, last);
    AsciiChars(text);
    BdatWords(|payload|, last);
    ParseInt32Reads(|payload|);
    assert Power(10) == 10 * Power(9) && Power(9) == 10 * Power(8) && Power(8) == 10 * Power(7);
    assert Power(7) == 10 * Power(6) && Power(6) == 10 * Power(5) && Power(5) == 10 * Power(4);
    assert Power(4) == 10 * Power(3) && Power(3) == 10 * Power(2) && Power(2) == 100;
    DecimalIsShort(|payload|, 10, Power(10));
    BdatVerb();
  }

  lemma BdatVerb()
    ensures SmtpBehavior.CanonicalVerb("BDAT") == "BDAT"
  {
    SmtpBehavior.TransactionIsCapitals("BDAT");
    SmtpBehavior.CapitalsStay("BDAT");
  }
}
