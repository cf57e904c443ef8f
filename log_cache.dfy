/** The in-memory cache of log patterns (internal/managers/log.go): include patterns
    grouped by lower-cased event type, and a flat list of exclude patterns, rebuilt
    from the `log_exclusions` rows on every reload. */
module LogCache {
  import opened Common
  import opened GoStrings

  /** `models.MatchTypeExclude`, the only match type that is treated specially. */
  const MatchTypeExclude: string := "exclude"
  /** `models.MatchTypeInclude`. */
  const MatchTypeInclude: string := "include"

  /** A `models.LogExclusion` row. */
  datatype LogExclusion = LogExclusion(pattern: string, matchType: string, eventType: string)

  /** The pattern text a row contributes: its pattern with surrounding white space trimmed. */
  function PatternOf(row: LogExclusion): string
  {
    TrimSpace(row.pattern)
  }

  /** A row is kept iff its trimmed pattern is non-empty and compiles. */
  predicate Usable(row: LogExclusion, compiles: string -> bool)
  {
    PatternOf(row) != "" && compiles(PatternOf(row))
  }

  predicate IsExclude(row: LogExclusion)
  {
    row.matchType == MatchTypeExclude
  }

  /** The exclude list a reload of `rows` builds. */
  function ExcludeList(rows: seq<LogExclusion>, compiles: string -> bool): seq<Regex>
  {
    if rows == [] then []
    else
      var row := rows[|rows| - 1];
      ExcludeList(rows[..|rows| - 1], compiles)
        + (if Usable(row, compiles) && IsExclude(row) then [Regex(PatternOf(row))] else [])
  }

  /** The include map a reload of `rows` builds: each kept non-exclude row's pattern is
      appended to the bucket of its lower-cased event type. */
  function IncludeMap(rows: seq<LogExclusion>, compiles: string -> bool): map<string, seq<Regex>>
  {
    if rows == [] then map[]
    else
      var row := rows[|rows| - 1];
      var m := IncludeMap(rows[..|rows| - 1], compiles);
      if Usable(row, compiles) && !IsExclude(row) then
        var t := ToLower(row.eventType);
        m[t := (if t in m then m[t] else []) + [Regex(PatternOf(row))]]
      else m
  }

  /** Reference view of one include bucket: the patterns of the kept non-exclude rows
      whose lower-cased event type is `t`, in row order. */
  function Bucket(rows: seq<LogExclusion>, t: string, compiles: string -> bool): seq<Regex>
  {
    if rows == [] then []
    else
      var row := rows[|rows| - 1];
      Bucket(rows[..|rows| - 1], t, compiles)
        + (if Usable(row, compiles) && !IsExclude(row) && ToLower(row.eventType) == t
           then [Regex(PatternOf(row))] else [])
  }

  /** The include map has a key exactly for the event types with a non-empty bucket,
      and holds that bucket under it. */
  lemma {:induction false} IncludeMapBuckets(rows: seq<LogExclusion>, compiles: string -> bool)
    ensures forall t :: t in IncludeMap(rows, compiles) <==> Bucket(rows, t, compiles) != []
    ensures forall t :: t in IncludeMap(rows, compiles) ==> IncludeMap(rows, compiles)[t] == Bucket(rows, t, compiles)
  {
    if rows != [] {
      IncludeMapBuckets(rows[..|rows| - 1], compiles);
    }
  }

  /** Every key of the include map is lower-case. */
  lemma {:induction false} IncludeKeysLowerCase(rows: seq<LogExclusion>, compiles: string -> bool)
    ensures forall t :: t in IncludeMap(rows, compiles) ==> ToLower(t) == t
  {
    if rows != [] {
      var row := rows[|rows| - 1];
      IncludeKeysLowerCase(rows[..|rows| - 1], compiles);
      ToLowerIdempotent(row.eventType);
    }
  }

  /** Row `row` puts the text `p` on the exclude list. */
  predicate ExcludesText(row: LogExclusion, compiles: string -> bool, p: string)
  {
    Usable(row, compiles) && IsExclude(row) && PatternOf(row) == p
  }

  /** A text is in the exclude list iff some kept row with match type exactly
      "exclude" carries it. */
  lemma ExcludeListMembers(rows: seq<LogExclusion>, compiles: string -> bool)
    ensures |ExcludeList(rows, compiles)| <= |rows|
    ensures forall p :: Regex(p) in ExcludeList(rows, compiles) <==>
              exists k :: 0 <= k < |rows| && ExcludesText(rows[k], compiles, p)
  {
    ExcludeListSound(rows, compiles);
    ExcludeListComplete(rows, compiles);
  }

  /** Every text on the exclude list comes from an exclude row; the list is no longer
      than the rows. */
  lemma {:induction false} ExcludeListSound(rows: seq<LogExclusion>, compiles: string -> bool)
    ensures |ExcludeList(rows, compiles)| <= |rows|
    ensures forall p :: Regex(p) in ExcludeList(rows, compiles) ==>
              exists k :: 0 <= k < |rows| && ExcludesText(rows[k], compiles, p)
  {
    if rows != [] {
      var init := rows[..|rows| - 1];
      ExcludeListSound(init, compiles);
      forall p | Regex(p) in ExcludeList(rows, compiles)
        ensures exists k :: 0 <= k < |rows| && ExcludesText(rows[k], compiles, p)
      {
        if Regex(p) in ExcludeList(init, compiles) {
          var k :| 0 <= k < |init| && ExcludesText(init[k], compiles, p);
          assert rows[k] == init[k];
        } else {
          assert ExcludesText(rows[|rows| - 1], compiles, p);
        }
      }
    }
  }

  /** Every exclude row's text is on the exclude list. */
  lemma {:induction false} ExcludeListComplete(rows: seq<LogExclusion>, compiles: string -> bool)
    ensures forall k, p :: 0 <= k < |rows| && ExcludesText(rows[k], compiles, p) ==> Regex(p) in ExcludeList(rows, compiles)
  {
    if rows != [] {
      var init := rows[..|rows| - 1];
      ExcludeListComplete(init, compiles);
      forall k, p | 0 <= k < |rows| && ExcludesText(rows[k], compiles, p)
        ensures Regex(p) in ExcludeList(rows, compiles)
      {
        if k < |init| {
          assert init[k] == rows[k];
          assert Regex(p) in ExcludeList(init, compiles);
        }
      }
    }
  }

  /** A row whose match type is not exactly "exclude" (say "Exclude") is an include
      row: its pattern lands in the bucket of its event type, not in the exclude list. */
  lemma {:induction false} OnlyExactExcludeExcludes(rows: seq<LogExclusion>, row: LogExclusion, compiles: string -> bool)
    requires Usable(row, compiles) && row.matchType != MatchTypeExclude
    ensures ExcludeList(rows + [row], compiles) == ExcludeList(rows, compiles)
    ensures Bucket(rows + [row], ToLower(row.eventType), compiles)
            == Bucket(rows, ToLower(row.eventType), compiles) + [Regex(PatternOf(row))]
  {
    assert (rows + [row])[..|rows|] == rows;
  }

  class LogManager {
    /** `cache`: include patterns by lower-cased event type. */
    var cache: map<string, seq<Regex>>
    /** `exclude`: the exclude patterns. */
    var exclude: seq<Regex>

    /** `Logs` as declared: an empty map and no exclude patterns. */
    constructor()
      ensures cache == map[] && exclude == []
    {
      cache := map[];
      exclude := [];
    }

    /** `Reload`: on a query error nothing changes and the error is returned;
        otherwise both snapshots are rebuilt from the rows alone and swapped in. */
    method Reload(query: Result<seq<LogExclusion>>, compiles: string -> bool) returns (err: Option<Error>)
      modifies this
      ensures query.Failure? ==> err == Some(query.error) && cache == old(cache) && exclude == old(exclude)
      ensures query.Success? ==> err == None
                                 && cache == IncludeMap(query.value, compiles)
                                 && exclude == ExcludeList(query.value, compiles)
    {
      if query.Failure? {
        return Some(query.error);
      }
      var rows := query.value;
      var newCache: map<string, seq<Regex>> := map[];
      var newExclude: seq<Regex> := [];
      for i := 0 to |rows|
        invariant newCache == IncludeMap(rows[..i], compiles)
        invariant newExclude == ExcludeList(rows[..i], compiles)
      {
        assert rows[..i + 1][..i] == rows[..i];
        var pattern := TrimSpace(rows[i].pattern);
        if pattern == "" {
          continue;
        }
        if !compiles(pattern) {
          continue;
        }
        if rows[i].matchType == MatchTypeExclude {
          newExclude := newExclude + [Regex(pattern)];
        } else {
          var eventType := ToLower(rows[i].eventType);
          var bucket := if eventType in newCache then newCache[eventType] else [];
          newCache := newCache[eventType := bucket + [Regex(pattern)]];
        }
      }
      assert rows[..|rows|] == rows;
      cache := newCache;
      exclude := newExclude;
      return None;
    }

    /** `Include`: the bucket of the lower-cased event type, empty when there is none. */
    function Include(eventType: string): seq<Regex>
      reads this
    {
      var t := ToLower(eventType);
      if t in cache then cache[t] else []
    }

    /** `Exclude`: the exclude patterns. */
    function Exclude(): seq<Regex>
      reads this
    {
      exclude
    }

    /** `KnownEventTypes`: every include key exactly once, in an order the map's
        iteration chooses. */
    method KnownEventTypes() returns (types: seq<string>)
      ensures |types| == |cache|
      ensures forall t :: t in types <==> t in cache
      ensures forall i, j :: 0 <= i < j < |types| ==> types[i] != types[j]
    {
      types := [];
      var rest := cache.Keys;
      while rest != {}
        invariant rest <= cache.Keys
        invariant forall t :: t in types <==> t in cache.Keys - rest
        invariant forall i, j :: 0 <= i < j < |types| ==> types[i] != types[j]
        invariant |types| + |rest| == |cache.Keys|
        decreases |rest|
      {
        var t :| t in rest;
        assert t !in types;
        types := types + [t];
        rest := rest - {t};
      }
    }
  }

  /** `Include` ignores the case of the event type it is asked for. */
  lemma IncludeCaseInsensitive(m: LogManager, eventType: string)
    ensures m.Include(eventType) == m.Include(ToLower(eventType))
  {
    ToLowerIdempotent(eventType);
  }

  /** After reloading `rows`, `Include(t)` is the bucket of the lower-cased `t`
      (empty for an unknown type) and `Exclude()` the exclude list. */
  lemma ReadsAfterReload(m: LogManager, rows: seq<LogExclusion>, compiles: string -> bool, eventType: string)
    requires m.cache == IncludeMap(rows, compiles) && m.exclude == ExcludeList(rows, compiles)
    ensures m.Include(eventType) == Bucket(rows, ToLower(eventType), compiles)
    ensures m.Exclude() == ExcludeList(rows, compiles)
  {
    IncludeMapBuckets(rows, compiles);
  }
}
