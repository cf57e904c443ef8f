/** The error-line decision of the log analyzer (internal/loganalyzer/patterns.go):
    a list of default error patterns, and include and exclude lists taken from the
    configuration.  A compiled pattern is known only by its text; whether a text
    compiles and whether it matches a line are the parameters `compiles` and
    `matches`. */
module Patterns {
  import opened Common

  /** The seven built-in error patterns, in their declared order. */
  const DefaultErrorPatterns: seq<Regex> := [
    Regex(@"(?i)\berror\b"),
    Regex(@"(?i)\bpanic\b"),
    Regex(@"(?i)\bfailed\b"),
    Regex(@"(?i)\bexception\b"),
    Regex(@"(?i)\btraceback\b"),
    Regex(@"(?i)\bunhandledpromiserejection\b"),
    Regex(@"(?i)\bsegmentation fault\b")
  ]

  /** The patterns of `patterns` that compile, in their order. */
  function Compiled(patterns: seq<string>, compiles: string -> bool): seq<Regex>
  {
    if patterns == [] then []
    else
      var last := patterns[|patterns| - 1];
      Compiled(patterns[..|patterns| - 1], compiles) + (if compiles(last) then [Regex(last)] else [])
  }

  /** A text is among the compiled patterns iff it was configured and compiles;
      nothing else gets in, and no more patterns come out than went in. */
  lemma {:induction false} CompiledMembers(patterns: seq<string>, compiles: string -> bool)
    ensures |Compiled(patterns, compiles)| <= |patterns|
    ensures forall p :: Regex(p) in Compiled(patterns, compiles) <==> p in patterns && compiles(p)
  {
    if patterns != [] {
      var init := patterns[..|patterns| - 1];
      CompiledMembers(init, compiles);
      assert patterns == init + [patterns[|patterns| - 1]];
    }
  }

  /** Compiling two lists one after the other compiles their concatenation:
      the order of the configured patterns is kept. */
  lemma {:induction false} CompiledAppend(a: seq<string>, b: seq<string>, compiles: string -> bool)
    ensures Compiled(a + b, compiles) == Compiled(a, compiles) + Compiled(b, compiles)
  {
    if b != [] {
      var init := b[..|b| - 1];
      CompiledAppend(a, init, compiles);
      assert (a + b)[..|a + b| - 1] == a + init;
    } else {
      assert a + b == a;
    }
  }

  /** When every configured pattern compiles, none is dropped. */
  lemma {:induction false} CompiledAllValid(patterns: seq<string>, compiles: string -> bool)
    requires forall k :: 0 <= k < |patterns| ==> compiles(patterns[k])
    ensures |Compiled(patterns, compiles)| == |patterns|
    ensures forall k :: 0 <= k < |patterns| ==> Compiled(patterns, compiles)[k] == Regex(patterns[k])
  {
    if patterns != [] {
      CompiledAllValid(patterns[..|patterns| - 1], compiles);
    }
  }

  /** `compileMany`: compile each configured pattern, silently skipping the invalid ones. */
  method CompileMany(patterns: seq<string>, compiles: string -> bool) returns (result: seq<Regex>)
    ensures result == Compiled(patterns, compiles)
  {
    result := [];
    for i := 0 to |patterns|
      invariant result == Compiled(patterns[..i], compiles)
    {
      assert patterns[..i + 1][..i] == patterns[..i];
      if compiles(patterns[i]) {
        result := result + [Regex(patterns[i])];
      }
    }
    assert patterns[..|patterns|] == patterns;
  }

  /** A compiled list matches a line iff some configured pattern that compiles matches it. */
  lemma CompiledMatches(patterns: seq<string>, compiles: string -> bool, line: string, matches: (string, string) -> bool)
    ensures AnyMatch(Compiled(patterns, compiles), line, matches)
            <==> exists k :: 0 <= k < |patterns| && compiles(patterns[k]) && matches(patterns[k], line)
  {
    var c := Compiled(patterns, compiles);
    CompiledMembers(patterns, compiles);
    if AnyMatch(c, line, matches) {
      var i :| 0 <= i < |c| && matches(c[i].expr, line);
      assert Regex(c[i].expr) in c;
      var k :| 0 <= k < |patterns| && patterns[k] == c[i].expr;
      assert compiles(patterns[k]) && matches(patterns[k], line);
    }
    if exists k :: 0 <= k < |patterns| && compiles(patterns[k]) && matches(patterns[k], line) {
      var k :| 0 <= k < |patterns| && compiles(patterns[k]) && matches(patterns[k], line);
      assert Regex(patterns[k]) in c;
      var i :| 0 <= i < |c| && c[i] == Regex(patterns[k]);
      assert matches(c[i].expr, line);
    }
  }

  /** The decision `IsLogError` makes: an include match flags the line whatever the
      exclude list says; otherwise an exclude match clears it; otherwise a default
      pattern decides (and an empty default list flags nothing). */
  predicate FlagsError(includes: seq<Regex>, excludes: seq<Regex>, defaults: seq<Regex>,
                       line: string, matches: (string, string) -> bool)
  {
    AnyMatch(includes, line, matches) || (!AnyMatch(excludes, line, matches) && AnyMatch(defaults, line, matches))
  }

  /** A list matches iff its first part or its second part does. */
  lemma AnyMatchAppend(a: seq<Regex>, b: seq<Regex>, line: string, matches: (string, string) -> bool)
    ensures AnyMatch(a + b, line, matches) <==> AnyMatch(a, line, matches) || AnyMatch(b, line, matches)
  {
    if AnyMatch(a + b, line, matches) {
      var i :| 0 <= i < |a + b| && matches((a + b)[i].expr, line);
      if i >= |a| {
        assert b[i - |a|] == (a + b)[i];
      }
    }
    if AnyMatch(a, line, matches) {
      var i :| 0 <= i < |a| && matches(a[i].expr, line);
      assert (a + b)[i] == a[i];
    }
    if AnyMatch(b, line, matches) {
      var i :| 0 <= i < |b| && matches(b[i].expr, line);
      assert (a + b)[|a| + i] == b[i];
    }
  }

  /** Adding a default pattern flags exactly the lines flagged before, plus the lines
      the new pattern matches that no include pattern catches first and no exclude
      pattern clears. */
  lemma AddedPatternWidens(includes: seq<Regex>, excludes: seq<Regex>, defaults: seq<Regex>, p: Regex,
                           line: string, matches: (string, string) -> bool)
    ensures FlagsError(includes, excludes, defaults + [p], line, matches)
            <==> FlagsError(includes, excludes, defaults, line, matches)
                 || (!AnyMatch(excludes, line, matches) && matches(p.expr, line))
  {
    AnyMatchAppend(defaults, [p], line, matches);
    assert AnyMatch([p], line, matches) <==> matches(p.expr, line) by {
      if matches(p.expr, line) {
        assert [p][0] == p;
      }
    }
  }

  /** The package state: the default, include and exclude pattern lists. */
  class PatternSet {
    /** `errorPatterns`. */
    var errorPatterns: seq<Regex>
    /** `includePatterns`. */
    var includePatterns: seq<Regex>
    /** `excludePatterns`. */
    var excludePatterns: seq<Regex>

    /** The state at program start: the built-in defaults and no custom patterns. */
    constructor()
      ensures errorPatterns == DefaultErrorPatterns
      ensures includePatterns == [] && excludePatterns == []
    {
      errorPatterns := DefaultErrorPatterns;
      includePatterns := [];
      excludePatterns := [];
    }

    /** `InitCustomPatterns`: the include and exclude lists become the compiled
        configured lists; the defaults are kept. */
    method InitCustomPatterns(includeError: seq<string>, excludeError: seq<string>, compiles: string -> bool)
      modifies this
      ensures includePatterns == Compiled(includeError, compiles)
      ensures excludePatterns == Compiled(excludeError, compiles)
      ensures errorPatterns == old(errorPatterns)
    {
      includePatterns := CompileMany(includeError, compiles);
      excludePatterns := CompileMany(excludeError, compiles);
    }

    /** `IsLogError`: include patterns first, then exclude patterns, then the defaults,
        each scanned in order until one matches. */
    method IsLogError(line: string, matches: (string, string) -> bool) returns (r: bool)
      ensures r == FlagsError(includePatterns, excludePatterns, errorPatterns, line, matches)
    {
      for i := 0 to |includePatterns|
        invariant forall k :: 0 <= k < i ==> !matches(includePatterns[k].expr, line)
      {
        if matches(includePatterns[i].expr, line) {
          return true;
        }
      }
      for i := 0 to |excludePatterns|
        invariant forall k :: 0 <= k < i ==> !matches(excludePatterns[k].expr, line)
      {
        if matches(excludePatterns[i].expr, line) {
          return false;
        }
      }
      if |errorPatterns| == 0 {
        return false;
      }
      for i := 0 to |errorPatterns|
        invariant forall k :: 0 <= k < i ==> !matches(errorPatterns[k].expr, line)
      {
        if matches(errorPatterns[i].expr, line) {
          return true;
        }
      }
      return false;
    }

    /** `AddErrorPattern`: a pattern that does not compile is reported and changes
        nothing; one that compiles becomes the new last default pattern. */
    method AddErrorPattern(pattern: string, compiles: string -> bool) returns (err: Option<Error>)
      modifies this
      ensures err.Some? <==> !compiles(pattern)
      ensures errorPatterns == if compiles(pattern) then old(errorPatterns) + [Regex(pattern)] else old(errorPatterns)
      ensures includePatterns == old(includePatterns) && excludePatterns == old(excludePatterns)
    {
      if !compiles(pattern) {
        return Some(CompileError(pattern));
      }
      errorPatterns := errorPatterns + [Regex(pattern)];
      return None;
    }

    /** `ClearPatterns`: the default list becomes empty; the custom lists stay. */
    method ClearPatterns()
      modifies this
      ensures errorPatterns == []
      ensures includePatterns == old(includePatterns) && excludePatterns == old(excludePatterns)
    {
      errorPatterns := [];
    }
  }

  /** The error `regexp.Compile` reports for an invalid pattern (its wording is the library's). */
  function CompileError(pattern: string): Error
  {
    Failed("error parsing regexp: " + pattern)
  }

  /** With the defaults cleared, a line is flagged iff an include pattern matches it. */
  lemma ClearedFlagsOnlyIncluded(includes: seq<Regex>, excludes: seq<Regex>, line: string, matches: (string, string) -> bool)
    ensures FlagsError(includes, excludes, [], line, matches) <==> AnyMatch(includes, line, matches)
  {
  }
}
