/** UTF-8 as RFC 3629 section 4 defines it, and the bytes it never contains. */
module Utf8 {
  import opened Prelude

  predicate Tail(b: byte) {
    0x80 <= b <= 0xBF
  }

  /**
   * Length of the well-formed character at the start of `s`, or 0 when there is
   * none (the UTF8-1 .. UTF8-4 productions of RFC 3629 section 4).
   */
  function CharLen(s: Bytes): (n: nat)
    ensures n <= 4 && n <= |s|
  {
    if s == [] then 0
    else if s[0] <= 0x7F then 1
    else if 0xC2 <= s[0] <= 0xDF then
      if |s| >= 2 && Tail(s[1]) then 2 else 0
    else if 0xE0 <= s[0] <= 0xEF then
      if |s| >= 3 && Tail(s[1]) && Tail(s[2])
         && (s[0] == 0xE0 ==> s[1] >= 0xA0)
         && (s[0] == 0xED ==> s[1] <= 0x9F) then 3 else 0
    else if 0xF0 <= s[0] <= 0xF4 then
      if |s| >= 4 && Tail(s[1]) && Tail(s[2]) && Tail(s[3])
         && (s[0] == 0xF0 ==> s[1] >= 0x90)
         && (s[0] == 0xF4 ==> s[1] <= 0x8F) then 4 else 0
    else 0
  }

  predicate Valid(s: Bytes) {
    s == [] || (CharLen(s) > 0 && Valid(s[CharLen(s)..]))
  }

  /** The bytes of one `&str`. */
  type Text = s: Bytes | Valid(s)

  /** The frame tags start with 0xFD and the index separator is 0xFF: neither occurs in a text. */
  lemma {:induction false} NoHighBytes(s: Bytes)
    requires Valid(s)
    ensures forall i :: 0 <= i < |s| ==> s[i] <= 0xF4
  {
    if s != [] {
      var n := CharLen(s);
      NoHighBytes(s[n..]);
      forall i | 0 <= i < |s| ensures s[i] <= 0xF4 {
        if i >= n {
          assert s[i] == s[n..][i - n];
        }
      }
    }
  }
}
