/** The few functions of Go's `strings` package that the core relies on,
    on strings viewed as sequences of runes. */
module GoStrings {

  /** `strings.TrimLeft(s, cutset)`: drop the longest prefix made of cutset runes. */
  function TrimLeft(s: string, cutset: set<char>): string
  {
    if s != [] && s[0] in cutset then TrimLeft(s[1..], cutset) else s
  }

  /** `TrimLeft` keeps a suffix of `s` that does not start with a cutset rune,
      and everything it drops is in the cutset. */
  lemma TrimLeftShape(s: string, cutset: set<char>)
    ensures var r := TrimLeft(s, cutset);
      && |r| <= |s| && r == s[|s| - |r|..]
      && (r != [] ==> r[0] !in cutset)
      && (forall i :: 0 <= i < |s| - |r| ==> s[i] in cutset)
  {
    TrimLeftSuffix(s, cutset);
    TrimLeftDropped(s, cutset);
  }

  /** What `TrimLeft` keeps is a suffix of `s` not starting with a cutset rune. */
  lemma {:induction false} TrimLeftSuffix(s: string, cutset: set<char>)
    ensures var r := TrimLeft(s, cutset);
      |r| <= |s| && r == s[|s| - |r|..] && (r != [] ==> r[0] !in cutset)
  {
    if s != [] && s[0] in cutset {
      var t := s[1..];
      TrimLeftSuffix(t, cutset);
      var r := TrimLeft(t, cutset);
      assert t[|t| - |r|..] == s[|s| - |r|..];
    }
  }

  /** Every rune `TrimLeft` drops is in the cutset. */
  lemma {:induction false} TrimLeftDropped(s: string, cutset: set<char>)
    ensures forall i :: 0 <= i < |s| - |TrimLeft(s, cutset)| ==> s[i] in cutset
  {
    if s != [] && s[0] in cutset {
      var t := s[1..];
      TrimLeftDropped(t, cutset);
      var r := TrimLeft(t, cutset);
      forall i | 1 <= i < |s| - |r|
        ensures s[i] in cutset
      {
        assert s[i] == t[i - 1];
      }
    }
  }

  /** `strings.TrimRight(s, cutset)`: drop the longest suffix made of cutset runes. */
  function TrimRight(s: string, cutset: set<char>): string
  {
    if s != [] && s[|s| - 1] in cutset then TrimRight(s[..|s| - 1], cutset) else s
  }

  /** `TrimRight` keeps a prefix of `s` that does not end with a cutset rune,
      and everything it drops is in the cutset. */
  lemma {:induction false} TrimRightShape(s: string, cutset: set<char>)
    ensures var r := TrimRight(s, cutset);
      && |r| <= |s| && r == s[..|r|]
      && (r != [] ==> r[|r| - 1] !in cutset)
      && (forall i :: |r| <= i < |s| ==> s[i] in cutset)
  {
    if s != [] && s[|s| - 1] in cutset {
      var t := s[..|s| - 1];
      TrimRightShape(t, cutset);
      var r := TrimRight(t, cutset);
      assert TrimRight(s, cutset) == r;
      assert t[..|r|] == s[..|r|];
      forall i | |r| <= i < |t|
        ensures s[i] in cutset
      {
        assert s[i] == t[i];
      }
    }
  }

  /** The runes `unicode.IsSpace` accepts: the ASCII spaces, U+0085, U+00A0 and
      the other runes with the Unicode White_Space property. */
  const WhiteSpace: set<char> := {
    '\t', '\n', '\U{000B}', '\U{000C}', '\r', ' ', '\U{0085}', '\U{00A0}', '\U{1680}',
    '\U{2000}', '\U{2001}', '\U{2002}', '\U{2003}', '\U{2004}', '\U{2005}', '\U{2006}',
    '\U{2007}', '\U{2008}', '\U{2009}', '\U{200A}', '\U{2028}', '\U{2029}', '\U{202F}',
    '\U{205F}', '\U{3000}'
  }

  /** `strings.TrimSpace(s)`. */
  function TrimSpace(s: string): (r: string)
  {
    TrimRight(TrimLeft(s, WhiteSpace), WhiteSpace)
  }

  /** `TrimSpace` yields a contiguous piece of `s` with no white space at either end,
      and everything it cut off is white space. */
  lemma TrimSpaceShape(s: string)
    ensures exists i, j :: 0 <= i <= j <= |s| && TrimSpace(s) == s[i..j]
              && (forall k :: 0 <= k < i ==> s[k] in WhiteSpace)
              && (forall k :: j <= k < |s| ==> s[k] in WhiteSpace)
    ensures TrimSpace(s) != [] ==> TrimSpace(s)[0] !in WhiteSpace
    ensures TrimSpace(s) != [] ==> TrimSpace(s)[|TrimSpace(s)| - 1] !in WhiteSpace
  {
    var l := TrimLeft(s, WhiteSpace);
    var r := TrimRight(l, WhiteSpace);
    TrimLeftShape(s, WhiteSpace);
    TrimRightShape(l, WhiteSpace);
    var i := |s| - |l|;
    var j := i + |r|;
    assert r == s[i..j];
    assert forall k :: j <= k < |s| ==> s[k] == l[k - i];
  }

  /** `unicode.ToLower` restricted to ASCII letters. */
  function ToLowerRune(c: char): char
  {
    if 'A' <= c <= 'Z' then (c as int + 32) as char else c
  }

  /** `strings.ToLower(s)`, rune by rune. */
  function ToLower(s: string): (r: string)
    ensures |r| == |s|
    ensures forall i :: 0 <= i < |s| ==> r[i] == ToLowerRune(s[i])
  {
    seq(|s|, i requires 0 <= i < |s| => ToLowerRune(s[i]))
  }

  /** Lower-casing twice is lower-casing once. */
  lemma ToLowerIdempotent(s: string)
    ensures ToLower(ToLower(s)) == ToLower(s)
  {
    var once := ToLower(s);
    forall i | 0 <= i < |s|
      ensures ToLower(once)[i] == once[i]
    {
      assert ToLowerRune(once[i]) == once[i];
    }
  }

  /** `strings.TrimPrefix(s, prefix)`. */
  function TrimPrefix(s: string, prefix: string): (r: string)
    ensures if |prefix| <= |s| && s[..|prefix|] == prefix then r == s[|prefix|..] else r == s
  {
    if |prefix| <= |s| && s[..|prefix|] == prefix then s[|prefix|..] else s
  }

  /** Number of occurrences of `c` in `s`. */
  function Count(s: string, c: char): nat
  {
    if s == [] then 0 else (if s[0] == c then 1 else 0) + Count(s[1..], c)
  }

  /** `strings.Split(s, string(sep))`: the pieces between separators, always at least one. */
  function Split(s: string, sep: char): (parts: seq<string>)
    ensures |parts| == Count(s, sep) + 1
    ensures forall k :: 0 <= k < |parts| ==> sep !in parts[k]
  {
    if s == [] then [[]]
    else
      var rest := Split(s[1..], sep);
      if s[0] == sep then [[]] + rest
      else [[s[0]] + rest[0]] + rest[1..]
  }

  /** `strings.Join(parts, string(sep))`. */
  function Join(parts: seq<string>, sep: char): string
    requires |parts| >= 1
  {
    if |parts| == 1 then parts[0] else parts[0] + [sep] + Join(parts[1..], sep)
  }

  /** Joining the pieces of a split gives back the original text. */
  lemma {:induction false} JoinSplit(s: string, sep: char)
    ensures Join(Split(s, sep), sep) == s
  {
    if s != [] {
      var rest := Split(s[1..], sep);
      JoinSplit(s[1..], sep);
      if s[0] == sep {
        assert Split(s, sep) == [[]] + rest;
      } else {
        var parts := Split(s, sep);
        assert parts == [[s[0]] + rest[0]] + rest[1..];
        if |rest| == 1 {
          assert Join(parts, sep) == [s[0]] + rest[0];
        } else {
          assert parts[1..] == rest[1..];
          assert Join(parts, sep) == [s[0]] + rest[0] + [sep] + Join(rest[1..], sep);
        }
      }
    }
  }

  /** Splitting a join of separator-free pieces gives back the pieces. */
  lemma {:induction false} SplitJoin(parts: seq<string>, sep: char)
    requires |parts| >= 1
    requires forall k :: 0 <= k < |parts| ==> sep !in parts[k]
    ensures Split(Join(parts, sep), sep) == parts
  {
    if |parts| == 1 {
      SplitSeparatorFree(parts[0], sep);
    } else {
      SplitJoin(parts[1..], sep);
      SplitPrefix(parts[0], Join(parts[1..], sep), sep);
      assert Join(parts, sep) == parts[0] + ([sep] + Join(parts[1..], sep));
    }
  }

  lemma {:induction false} SplitSeparatorFree(s: string, sep: char)
    requires sep !in s
    ensures Split(s, sep) == [s]
  {
    if s != [] {
      SplitSeparatorFree(s[1..], sep);
      assert [s[0]] + s[1..] == s;
    }
  }

  /** Splitting `p + sep + t` for a separator-free `p` yields `p` followed by the pieces of `t`. */
  lemma {:induction false} SplitPrefix(p: string, t: string, sep: char)
    requires sep !in p
    ensures Split(p + ([sep] + t), sep) == [p] + Split(t, sep)
  {
    if p == [] {
      assert p + ([sep] + t) == [sep] + t;
      assert ([sep] + t)[1..] == t;
    } else {
      var s := p + ([sep] + t);
      assert s[1..] == p[1..] + ([sep] + t);
      SplitPrefix(p[1..], t, sep);
      assert [p[0]] + p[1..] == p;
    }
  }
}
