/** The in-memory container filter lists (internal/managers/container.go): the
    lower-cased values of the container rows, grouped by lower-cased type. */
module ContainerCache {
  import opened Common
  import opened GoStrings

  /** `models.ContainerExclusionName`, `…Image`, `…ID` and `…Label`: the types the rows carry. */
  const ContainerExclusionName: string := "name"
  const ContainerExclusionImage: string := "image"
  const ContainerExclusionId: string := "id"
  const ContainerExclusionLabel: string := "label"

  /** A container row: its type, its value, and its blacklist/whitelist mode. */
  datatype ContainerExclusion = ContainerExclusion(kind: string, value: string, mode: string)

  /** The cache a reload of `rows` builds: each row's lower-cased value appended to
      the list of its lower-cased type. */
  function Grouped(rows: seq<ContainerExclusion>): map<string, seq<string>>
  {
    if rows == [] then map[]
    else
      var row := rows[|rows| - 1];
      var m := Grouped(rows[..|rows| - 1]);
      var t := ToLower(row.kind);
      m[t := (if t in m then m[t] else []) + [ToLower(row.value)]]
  }

  /** Reference view of one list: the lower-cased values of the rows whose
      lower-cased type is `t`, in row order. */
  function ValuesOfType(rows: seq<ContainerExclusion>, t: string): seq<string>
  {
    if rows == [] then []
    else
      var row := rows[|rows| - 1];
      ValuesOfType(rows[..|rows| - 1], t) + (if ToLower(row.kind) == t then [ToLower(row.value)] else [])
  }

  /** The cache has a key exactly for the types some row has (up to case), and under
      it the values of those rows in order. */
  lemma {:induction false} GroupedLists(rows: seq<ContainerExclusion>)
    ensures forall t :: t in Grouped(rows) <==> ValuesOfType(rows, t) != []
    ensures forall t :: t in Grouped(rows) ==> Grouped(rows)[t] == ValuesOfType(rows, t)
  {
    if rows != [] {
      GroupedLists(rows[..|rows| - 1]);
    }
  }

  /** The mode of a row is never consulted: rows that differ only in their modes
      build the same cache. */
  lemma {:induction false} ModeIgnored(rows: seq<ContainerExclusion>, others: seq<ContainerExclusion>)
    requires |rows| == |others|
    requires forall k :: 0 <= k < |rows| ==> rows[k].kind == others[k].kind && rows[k].value == others[k].value
    ensures Grouped(rows) == Grouped(others)
  {
    if rows != [] {
      ModeIgnored(rows[..|rows| - 1], others[..|others| - 1]);
    }
  }

  class ContainerManager {
    /** `cache`: filter values by type. */
    var cache: map<string, seq<string>>

    /** `Containers` as declared: an empty cache. */
    constructor()
      ensures cache == map[]
    {
      cache := map[];
    }

    /** `Reload`: on a query error nothing changes and the error is returned;
        otherwise the cache is rebuilt from the rows alone and swapped in. */
    method Reload(query: Result<seq<ContainerExclusion>>) returns (err: Option<Error>)
      modifies this
      ensures query.Failure? ==> err == Some(query.error) && cache == old(cache)
      ensures query.Success? ==> err == None && cache == Grouped(query.value)
    {
      if query.Failure? {
        return Some(query.error);
      }
      var rows := query.value;
      var newCache: map<string, seq<string>> := map[];
      for i := 0 to |rows|
        invariant newCache == Grouped(rows[..i])
      {
        assert rows[..i + 1][..i] == rows[..i];
        var t := ToLower(rows[i].kind);
        var values := if t in newCache then newCache[t] else [];
        newCache := newCache[t := values + [ToLower(rows[i].value)]];
      }
      assert rows[..|rows|] == rows;
      cache := newCache;
      return None;
    }

    /** `All`: the list of the lower-cased type, empty when there is none.  The
        result is a value, so changing it cannot change the cache. */
    function All(t: string): seq<string>
      reads this
    {
      var key := ToLower(t);
      if key in cache then cache[key] else []
    }
  }

  /** `All` ignores the case of the type it is asked for. */
  lemma AllCaseInsensitive(m: ContainerManager, t: string)
    ensures m.All(t) == m.All(ToLower(t))
  {
    ToLowerIdempotent(t);
  }

  /** After reloading `rows`, `All(t)` lists the lower-cased values of the rows whose
      type equals `t` up to case, in row order, and nothing for an unknown type. */
  lemma AllAfterReload(m: ContainerManager, rows: seq<ContainerExclusion>, t: string)
    requires m.cache == Grouped(rows)
    ensures m.All(t) == ValuesOfType(rows, ToLower(t))
  {
    GroupedLists(rows);
  }
}
