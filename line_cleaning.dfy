/** `cleanLine` (internal/scanner/utils.go): the per-line trimming applied before a
    log line is handed to the analyzer. */
module LineCleaning {
  import opened GoStrings

  /** Runes cut from the end of a line: space, tab, CR, LF, NBSP, zero-width space
      and narrow no-break space. */
  const TrailingJunk: set<char> := {' ', '\t', '\r', '\n', '\U{00A0}', '\U{200B}', '\U{202F}'}

  /** Runes cut from the start of a line: the same set without CR and LF. */
  const LeadingJunk: set<char> := {' ', '\t', '\U{00A0}', '\U{200B}', '\U{202F}'}

  /** `cleanLine`: trim trailing junk, then leading junk. */
  function CleanLine(line: string): (r: string)
    ensures |r| <= |line|
  {
    TrimRightShape(line, TrailingJunk);
    TrimLeftShape(TrimRight(line, TrailingJunk), LeadingJunk);
    TrimLeft(TrimRight(line, TrailingJunk), LeadingJunk)
  }

  /** A cleaned line neither ends with trailing junk nor starts with leading junk. */
  lemma CleanLineEnds(line: string)
    ensures var r := CleanLine(line);
      r == [] || (r[|r| - 1] !in TrailingJunk && r[0] !in LeadingJunk)
  {
    var right := TrimRight(line, TrailingJunk);
    TrimRightShape(line, TrailingJunk);
    TrimLeftShape(right, LeadingJunk);
  }

  /** The cleaned line is the piece `line[i..j]`, where everything after `j` is
      trailing junk and everything before `i` is leading junk. */
  lemma CleanLineIsSlice(line: string)
    ensures exists i, j :: 0 <= i <= j <= |line| && CleanLine(line) == line[i..j]
              && (forall k :: j <= k < |line| ==> line[k] in TrailingJunk)
              && (forall k :: 0 <= k < i ==> line[k] in LeadingJunk)
  {
    var right := TrimRight(line, TrailingJunk);
    var r := TrimLeft(right, LeadingJunk);
    TrimRightShape(line, TrailingJunk);
    TrimLeftShape(right, LeadingJunk);
    var j := |right|;
    var i := j - |r|;
    assert r == line[i..j];
    assert forall k :: 0 <= k < i ==> line[k] == right[k];
  }

  /** Cleaning a clean line changes nothing. */
  lemma CleanLineIdempotent(line: string)
    ensures CleanLine(CleanLine(line)) == CleanLine(line)
  {
    var c := CleanLine(line);
    CleanLineEnds(line);
    NothingToTrimRight(c, TrailingJunk);
    NothingToTrimLeft(c, LeadingJunk);
  }

  lemma NothingToTrimRight(s: string, cutset: set<char>)
    requires s == [] || s[|s| - 1] !in cutset
    ensures TrimRight(s, cutset) == s
  {
  }

  lemma NothingToTrimLeft(s: string, cutset: set<char>)
    requires s == [] || s[0] !in cutset
    ensures TrimLeft(s, cutset) == s
  {
  }

  /** A line of nothing but blanks and invisible spaces cleans to the empty line. */
  lemma {:induction false} BlankLineCleansToEmpty(line: string)
    requires forall k :: 0 <= k < |line| ==> line[k] in LeadingJunk
    ensures CleanLine(line) == ""
  {
    AllTrimmedRight(line, TrailingJunk);
  }

  lemma {:induction false} AllTrimmedRight(s: string, cutset: set<char>)
    requires forall k :: 0 <= k < |s| ==> s[k] in cutset
    ensures TrimRight(s, cutset) == ""
  {
    if s != [] {
      AllTrimmedRight(s[..|s| - 1], cutset);
    }
  }

  /** Leading CR and LF survive: a line starting with "\r" followed by a visible rune is kept whole. */
  lemma LeadingLineBreakKept(rest: string)
    requires rest != [] && rest[|rest| - 1] !in TrailingJunk
    ensures CleanLine("\r" + rest) == "\r" + rest
  {
    NothingToTrimRight("\r" + rest, TrailingJunk);
    NothingToTrimLeft("\r" + rest, LeadingJunk);
  }
}
