/** The lines of an SMTP dialogue: line ends, words and numbers, on ASCII text. */
module SmtpLines {
  import opened Bytes

  function Chars(line: seq<byte>): (s: string)
    ensures |s| == |line|
  {
    seq(|line|, i requires 0 <= i < |line| => line[i] as char)
  }

  /** The line without its trailing carriage returns and line feeds. */
  function TrimEnd(line: seq<byte>): (t: seq<byte>)
    ensures t <= line
    ensures t == [] || (t[|t| - 1] != CR && t[|t| - 1] != LF)
    ensures forall i :: |t| <= i < |line| ==> line[i] == CR || line[i] == LF
  {
    if line == [] then []
    else if line[|line| - 1] == CR || line[|line| - 1] == LF then TrimEnd(line[..|line| - 1])
    else line
  }

  predicate Space(c: char) {
    c == ' ' || 9 <= c as int <= 13
  }

  function WordLength(s: string): (n: nat)
    ensures n <= |s|
    ensures forall i :: 0 <= i < n ==> !Space(s[i])
    ensures n < |s| ==> Space(s[n])
  {
    if s == "" || Space(s[0]) then 0 else 1 + WordLength(s[1..])
  }

  /** The words between white space. */
  function Words(s: string): (words: seq<string>)
    ensures forall i :: 0 <= i < |words| ==> words[i] != ""
    decreases |s|
  {
    if s == "" then []
    else if Space(s[0]) then Words(s[1..])
    else
      var n := WordLength(s);
      [s[..n]] + Words(s[n..])
  }

  function DigitsValue(s: string): (v: Option<nat>) {
    if s == "" || !('0' <= s[|s| - 1] <= '9') then None
    else
      var d := s[|s| - 1] as int - '0' as int;
      if |s| == 1 then Some(d)
      else
        var high := DigitsValue(s[..|s| - 1]);
        if high.None? then None else Some(10 * high.value + d)
  }

  /** A signed decimal number of 32 bits. */
  function ParseInt32(s: string): (v: Option<int>)
    ensures v.Some? ==> -0x8000_0000 <= v.value < 0x8000_0000
  {
    if s == "" then None
    else
      var signed := s[0] == '-' || s[0] == '+';
      var magnitude := DigitsValue(if signed then s[1..] else s);
      if magnitude.None? then None
      else
        var m: int := magnitude.value;
        var value := if s[0] == '-' then -m else m;
        if -0x8000_0000 <= value < 0x8000_0000 then Some(value) else None
  }

  /** The reply line starts with the given three digits. */
  predicate HasCode(line: seq<byte>, code: string) {
    |line| >= |code| && Chars(line[..|code|]) == code
  }
}
