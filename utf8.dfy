/** UTF-8 as section 4 of RFC 3629 defines it, on byte strings: which bytes begin a
    well-formed encoded character, and which byte strings are well formed. */
module Utf8 {

  newtype byte = b: int | 0 <= b < 256

  /** `UTF8-tail`: a continuation byte, %x80-BF. */
  predicate Tail(b: byte)
  {
    0x80 <= b <= 0xBF
  }

  /** The length of the well-formed encoded character at the head of `s`
      (`UTF8-1` to `UTF8-4` of section 4 of RFC 3629), or 0 when `s` does not begin
      with one: overlong forms, surrogates, code points above U+10FFFF, stray
      continuation bytes and truncated sequences all give 0. */
  function CharLen(s: seq<byte>): (n: nat)
    ensures n <= 4 && n <= |s|
    ensures n == 1 <==> s != [] && s[0] <= 0x7F
  {
    if |s| == 0 then 0
    else if s[0] <= 0x7F then 1
    else if 0xC2 <= s[0] <= 0xDF then
      if |s| >= 2 && Tail(s[1]) then 2 else 0
    else if s[0] == 0xE0 then
      if |s| >= 3 && 0xA0 <= s[1] <= 0xBF && Tail(s[2]) then 3 else 0
    else if 0xE1 <= s[0] <= 0xEC || 0xEE <= s[0] <= 0xEF then
      if |s| >= 3 && Tail(s[1]) && Tail(s[2]) then 3 else 0
    else if s[0] == 0xED then
      if |s| >= 3 && 0x80 <= s[1] <= 0x9F && Tail(s[2]) then 3 else 0
    else if s[0] == 0xF0 then
      if |s| >= 4 && 0x90 <= s[1] <= 0xBF && Tail(s[2]) && Tail(s[3]) then 4 else 0
    else if 0xF1 <= s[0] <= 0xF3 then
      if |s| >= 4 && Tail(s[1]) && Tail(s[2]) && Tail(s[3]) then 4 else 0
    else if s[0] == 0xF4 then
      if |s| >= 4 && 0x80 <= s[1] <= 0x8F && Tail(s[2]) && Tail(s[3]) then 4 else 0
    else 0
  }

  /** `UTF8-octets`: `s` is a sequence of well-formed encoded characters
      (what `utf8.ValidString` accepts). */
  predicate Valid(s: seq<byte>)
    decreases |s|
  {
    s == [] || (CharLen(s) > 0 && Valid(s[CharLen(s)..]))
  }

  /** What follows an encoded character does not change where that character ends. */
  lemma CharLenPrefix(a: seq<byte>, b: seq<byte>)
    requires CharLen(a) > 0
    ensures CharLen(a + b) == CharLen(a)
  {
    var n := CharLen(a);
    assert forall i :: 0 <= i < n ==> (a + b)[i] == a[i];
  }

  /** A single encoded character followed by well-formed bytes is well formed. */
  lemma ValidCons(a: seq<byte>, rest: seq<byte>)
    requires CharLen(a) == |a| > 0 && Valid(rest)
    ensures Valid(a + rest)
  {
    CharLenPrefix(a, rest);
    assert (a + rest)[|a|..] == rest;
  }

  /** Well-formed byte strings are closed under concatenation. */
  lemma {:induction false} ValidAppend(a: seq<byte>, b: seq<byte>)
    requires Valid(a) && Valid(b)
    ensures Valid(a + b)
    decreases |a|
  {
    if a != [] {
      var n := CharLen(a);
      SliceConcat(a, b, n);
      ValidAppend(a[n..], b);
      CharLenPrefix(a, b);
    } else {
      assert a + b == b;
    }
  }

  /** How slicing at `n` within `a` interacts with appending `b`. */
  lemma SliceConcat(a: seq<byte>, b: seq<byte>, n: nat)
    requires n <= |a|
    ensures (a + b)[..n] == a[..n] && (a + b)[n..] == a[n..] + b && a == a[..n] + a[n..]
  {
  }

  /** U+FFFD, the replacement character, correctly encoded: EF BF BD. */
  const ReplacementChar: seq<byte> := [0xEF, 0xBF, 0xBD]

  /** The encoded replacement character is one well-formed character. */
  lemma ReplacementCharValid()
    ensures CharLen(ReplacementChar) == 3 && Valid(ReplacementChar)
  {
    assert ReplacementChar[3..] == [];
  }
}
