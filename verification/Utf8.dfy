/** Well-formed UTF-8 (RFC 3629, section 4), and what becomes of text that is not. */
module Utf8 {
  import opened Base

  predicate Between(s: Bytes, i: nat, lo: int, hi: int) {
    i < |s| && lo <= s[i] <= hi
  }

  predicate Tail(s: Bytes, i: nat) {
    Between(s, i, 0x80, 0xBF)
  }

  /** How many bytes the first character takes; 0 if there is no well-formed one. */
  function RuneLen(s: Bytes): (n: nat)
    requires s != []
    ensures n <= 4 && n <= |s|
  {
    var b := s[0];
    if b < 0x80 then 1
    else if 0xC2 <= b <= 0xDF then if Tail(s, 1) then 2 else 0
    else if b == 0xE0 then if Between(s, 1, 0xA0, 0xBF) && Tail(s, 2) then 3 else 0
    else if b == 0xED then if Between(s, 1, 0x80, 0x9F) && Tail(s, 2) then 3 else 0
    else if 0xE1 <= b <= 0xEF then if Tail(s, 1) && Tail(s, 2) then 3 else 0
    else if b == 0xF0 then if Between(s, 1, 0x90, 0xBF) && Tail(s, 2) && Tail(s, 3) then 4 else 0
    else if 0xF1 <= b <= 0xF3 then if Tail(s, 1) && Tail(s, 2) && Tail(s, 3) then 4 else 0
    else if b == 0xF4 then if Between(s, 1, 0x80, 0x8F) && Tail(s, 2) && Tail(s, 3) then 4 else 0
    else 0
  }

  predicate Valid(s: Bytes)
    decreases |s|
  {
    s == [] || (RuneLen(s) > 0 && Valid(s[RuneLen(s)..]))
  }

  /** U+FFFD, which stands in for every byte that is not part of a character. */
  const REPLACEMENT: Bytes := [0xEF, 0xBF, 0xBD]

  function Sanitize(s: Bytes): Bytes
    decreases |s|
  {
    if s == [] then []
    else if RuneLen(s) > 0 then s[..RuneLen(s)] + Sanitize(s[RuneLen(s)..])
    else REPLACEMENT + Sanitize(s[1..])
  }

  /** Well-formed text is what sanitizing leaves alone; any other text gets longer. */
  lemma {:induction false} SanitizeFixes(s: Bytes)
    ensures |Sanitize(s)| >= |s|
    ensures Valid(s) <==> Sanitize(s) == s
    ensures Valid(s) <==> |Sanitize(s)| == |s|
    decreases |s|
  {
    if s != [] {
      if RuneLen(s) > 0 {
        var n := RuneLen(s);
        SanitizeFixes(s[n..]);
        assert s == s[..n] + s[n..];
      } else {
        SanitizeFixes(s[1..]);
      }
    }
  }

  lemma {:induction false} AsciiValid(s: Bytes)
    requires forall i :: 0 <= i < |s| ==> s[i] < 0x80
    ensures Valid(s) && Sanitize(s) == s
    decreases |s|
  {
    if s != [] {
      AsciiValid(s[1..]);
      SanitizeFixes(s);
    }
  }
}
