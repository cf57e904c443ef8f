/** The change watcher (internal/managers/watcher.go): a list of watched tables, each
    with timestamp fields, a reload callback and the time it was last checked.  A
    check pass asks, for each watcher and field in turn, how many rows changed after
    that time, and reloads on the first positive count.

    The row count is the parameter `count(table, field, since)`, a count or an error;
    the clock is the parameter `now`; a reload callback is known by a label, and a
    call to it is recorded in `reloads`. */
module ChangeWatcher {
  import opened Common

  /** A `ChangeWatcher`. */
  datatype Watcher = Watcher(table: string, fields: seq<string>, reload: string, lastChecked: Time)

  /** One call of a reload callback: which watcher made it, and that watcher's
      `LastChecked` when the callback ran. */
  datatype ReloadCall = ReloadCall(watcher: nat, lastChecked: Time)

  /** How far in the past a new watcher's `LastChecked` starts. */
  const StartBack: Duration := 5 * Minute

  /** A count query that succeeded with a positive count. */
  predicate Positive(r: Result<int>)
  {
    r.Success? && r.value > 0
  }

  /** The position of the first field whose count of rows changed after `since` is
      positive; a field whose query fails counts as unchanged. */
  function FirstChange(table: string, fields: seq<string>, since: Time,
                       count: (string, string, Time) -> Result<int>): (r: Option<nat>)
    ensures r.Some? ==> r.value < |fields| && Positive(count(table, fields[r.value], since))
    ensures forall k :: 0 <= k < |fields| && (r.None? || k < r.value) ==> !Positive(count(table, fields[k], since))
  {
    if fields == [] then None
    else if Positive(count(table, fields[0], since)) then Some(0)
    else
      var rest := FirstChange(table, fields[1..], since, count);
      if rest.Some? then Some(rest.value + 1) else None
  }

  /** Whether a check pass at any instant reloads watcher `w`. */
  predicate Changed(w: Watcher, count: (string, string, Time) -> Result<int>)
  {
    FirstChange(w.table, w.fields, w.lastChecked, count).Some?
  }

  /** Watcher `w` after a check pass at `now`. */
  function Checked(w: Watcher, count: (string, string, Time) -> Result<int>, now: Time): Watcher
  {
    if Changed(w, count) then w.(lastChecked := now) else w
  }

  /** The reload calls a check pass at `now` makes over `ws`, in order. */
  function Fired(ws: seq<Watcher>, count: (string, string, Time) -> Result<int>, now: Time): seq<ReloadCall>
  {
    if ws == [] then []
    else
      Fired(ws[..|ws| - 1], count, now)
        + (if Changed(ws[|ws| - 1], count) then [ReloadCall(|ws| - 1, now)] else [])
  }

  /** A check pass calls each watcher's reload at most once, in registration order,
      exactly for the watchers that saw a positive count, and each call sees
      `LastChecked` already moved to `now`. */
  lemma FiredOncePerChange(ws: seq<Watcher>, count: (string, string, Time) -> Result<int>, now: Time)
    ensures forall a, b :: 0 <= a < b < |Fired(ws, count, now)| ==>
              Fired(ws, count, now)[a].watcher < Fired(ws, count, now)[b].watcher
    ensures forall i :: 0 <= i < |ws| ==>
              (Changed(ws[i], count) <==> ReloadCall(i, now) in Fired(ws, count, now))
    ensures forall c :: c in Fired(ws, count, now) ==> c.watcher < |ws| && c.lastChecked == now
  {
    FiredInOrder(ws, count, now);
    FiredExactly(ws, count, now);
  }

  /** The calls of a pass go to watchers of the list, in increasing order, at `now`. */
  lemma {:induction false} FiredInOrder(ws: seq<Watcher>, count: (string, string, Time) -> Result<int>, now: Time)
    ensures forall a, b :: 0 <= a < b < |Fired(ws, count, now)| ==>
              Fired(ws, count, now)[a].watcher < Fired(ws, count, now)[b].watcher
    ensures forall c :: c in Fired(ws, count, now) ==> c.watcher < |ws| && c.lastChecked == now
  {
    if ws != [] {
      var init := ws[..|ws| - 1];
      FiredInOrder(init, count, now);
      var f := Fired(init, count, now);
      var last := if Changed(ws[|ws| - 1], count) then [ReloadCall(|ws| - 1, now)] else [];
      assert Fired(ws, count, now) == f + last;
    }
  }

  /** A pass calls watcher `i`'s reload iff it saw a positive count. */
  lemma {:induction false} FiredExactly(ws: seq<Watcher>, count: (string, string, Time) -> Result<int>, now: Time)
    ensures forall i :: 0 <= i < |ws| ==>
              (Changed(ws[i], count) <==> ReloadCall(i, now) in Fired(ws, count, now))
  {
    if ws != [] {
      var init := ws[..|ws| - 1];
      FiredExactly(init, count, now);
      FiredInOrder(init, count, now);
      var f := Fired(init, count, now);
      var last := if Changed(ws[|ws| - 1], count) then [ReloadCall(|ws| - 1, now)] else [];
      assert Fired(ws, count, now) == f + last;
      forall i | 0 <= i < |init|
        ensures ws[i] == init[i]
      {
      }
    }
  }

  /** A check pass moves `LastChecked` to `now` exactly when it reloads, and changes
      nothing else about a watcher. */
  lemma CheckedMovesOnlyOnReload(w: Watcher, count: (string, string, Time) -> Result<int>, now: Time)
    ensures Checked(w, count, now).table == w.table && Checked(w, count, now).fields == w.fields
    ensures Checked(w, count, now).reload == w.reload
    ensures Changed(w, count) ==> Checked(w, count, now).lastChecked == now
    ensures !Changed(w, count) ==> Checked(w, count, now) == w
  {
  }

  /** A watcher whose every count query fails is never reloaded. */
  lemma FailingQueriesNeverReload(w: Watcher, count: (string, string, Time) -> Result<int>)
    requires forall k :: 0 <= k < |w.fields| ==> count(w.table, w.fields[k], w.lastChecked).Failure?
    ensures !Changed(w, count)
  {
  }

  /** The field loop of `runChecks` for one watcher: query the fields in order, skip
      a failed query, stop at the first positive count. */
  method HasChange(w: Watcher, count: (string, string, Time) -> Result<int>) returns (changed: bool)
    ensures changed == Changed(w, count)
  {
    var j := 0;
    while j < |w.fields|
      invariant 0 <= j <= |w.fields|
      invariant forall k :: 0 <= k < j ==> !Positive(count(w.table, w.fields[k], w.lastChecked))
    {
      var n := count(w.table, w.fields[j], w.lastChecked);
      if n.Failure? {
        j := j + 1;
        continue;
      }
      if n.value > 0 {
        break;
      }
      j := j + 1;
    }
    changed := j < |w.fields|;
  }

  class ChangeWatcherManager {
    /** `watchers`, in registration order. */
    var watchers: seq<Watcher>
    /** The reload callbacks called so far, in order. */
    var reloads: seq<ReloadCall>

    /** `watcherManager` as declared: no watchers. */
    constructor()
      ensures watchers == [] && reloads == []
    {
      watchers := [];
      reloads := [];
    }

    /** `AddWatcher`: one new last watcher, last checked five minutes before `now`. */
    method AddWatcher(table: string, fields: seq<string>, reload: string, now: Time)
      modifies this
      ensures watchers == old(watchers) + [Watcher(table, fields, reload, now - StartBack)]
      ensures reloads == old(reloads)
    {
      watchers := watchers + [Watcher(table, fields, reload, now - StartBack)];
    }

    /** `runChecks`: for each watcher in order, scan its fields in order until one has a
        positive count; then set `LastChecked` to `now` and call the reload. */
    method RunChecks(count: (string, string, Time) -> Result<int>, now: Time)
      modifies this
      ensures |watchers| == |old(watchers)|
      ensures forall i :: 0 <= i < |watchers| ==> watchers[i] == Checked(old(watchers)[i], count, now)
      ensures reloads == old(reloads) + Fired(old(watchers), count, now)
    {
      ghost var before := watchers;
      for i := 0 to |watchers|
        invariant |watchers| == |before|
        invariant forall k :: 0 <= k < i ==> watchers[k] == Checked(before[k], count, now)
        invariant forall k :: i <= k < |watchers| ==> watchers[k] == before[k]
        invariant reloads == old(reloads) + Fired(before[..i], count, now)
      {
        assert before[..i + 1][..i] == before[..i];
        var w := watchers[i];
        var changed := HasChange(w, count);
        if changed {
          watchers := watchers[i := w.(lastChecked := now)];
          reloads := reloads + [ReloadCall(i, watchers[i].lastChecked)];
        }
      }
      assert before[..|before|] == before;
    }
  }
}
