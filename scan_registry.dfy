/** The scan registry (internal/scanner/manager.go): the map from container id to
    the scanner running for it, the scanner goroutines still alive, and the
    notifications the registry sends.

    Concurrency is not modelled: every operation below is one atomic step on the
    state, and the end of a scanner goroutine (what runs after its `Start`
    returns) is the separate step `WorkerExit`, which the environment takes with
    the value `Start` returned. */
module ScanRegistry {
  import opened Common
  import opened Docker
  import opened StreamScanner

  /** Identifies the cancellable context made for one scanner, and its cancel function. */
  type Handle = nat

  /** A registry entry: the scanner's configuration and its cancel function. */
  datatype ScannerEntry = ScannerEntry(scanner: LogScanner, cancel: Handle)

  /** The notifications the registry sends (telegram.Notification, registry kinds only). */
  datatype Notification =
    | ContainersSummary(containers: seq<ContainerInfo>)
    | ContainerStart(container: ContainerInfo)
    | ContainerStop(container: ContainerInfo)
    | ContainerStopWithError(container: ContainerInfo)

  /** A Docker container event: its action and the id of the container it is about. */
  datatype Event = Event(action: string, actorId: string)

  const ReconnectDelay: Duration := 5 * Second

  /** The scanner `startScanner` creates: streaming from `now`, 5 s reconnect delay,
      no retry limit, and the log analyzer as `OnLog`. */
  function NewScanner(info: ContainerInfo, now: Time): LogScanner
  {
    LogScanner(info, true, now, ReconnectDelay, 0)
  }

  /** The infos of the containers `shouldIgnoreContainer` lets through, in list order. */
  function Eligible(containers: seq<ContainerSummary>, ignore: ContainerInfo -> bool): seq<ContainerInfo>
  {
    if containers == [] then []
    else
      var info := NewContainerInfo(containers[|containers| - 1]);
      Eligible(containers[..|containers| - 1], ignore) + (if ignore(info) then [] else [info])
  }

  /** The position of the first listed container that has the event's id and is not
      ignored: the one a "start" event starts a scanner for. */
  function FirstToStart(containers: seq<ContainerSummary>, id: string, ignore: ContainerInfo -> bool): (r: Option<nat>)
    ensures r.Some? ==> r.value < |containers| && containers[r.value].id == id
                        && !ignore(NewContainerInfo(containers[r.value]))
    ensures forall k :: 0 <= k < |containers| && (r.None? || k < r.value) ==>
              containers[k].id != id || ignore(NewContainerInfo(containers[k]))
  {
    if containers == [] then None
    else if containers[0].id == id && !ignore(NewContainerInfo(containers[0])) then Some(0)
    else
      var rest := FirstToStart(containers[1..], id, ignore);
      if rest.Some? then Some(rest.value + 1) else None
  }

  /** Every tracked entry belongs to a live goroutine streaming that entry's
      container, and handles are handed out in order. */
  ghost predicate Consistent(scanners: map<string, ScannerEntry>, workers: map<Handle, ContainerInfo>,
                             cancelled: set<Handle>, nextHandle: Handle)
  {
    && (forall id :: id in scanners ==>
          scanners[id].cancel in workers && workers[scanners[id].cancel].id == id
          && scanners[id].scanner.container.id == id)
    && (forall h :: h in workers ==> h < nextHandle)
    && (forall h :: h in cancelled ==> h < nextHandle)
  }

  /** Cancelling every tracked scanner keeps the registry consistent. */
  lemma ConsistentAfterCancel(scanners: map<string, ScannerEntry>, workers: map<Handle, ContainerInfo>,
                              cancelled: set<Handle>, nextHandle: Handle)
    requires Consistent(scanners, workers, cancelled, nextHandle)
    ensures Consistent(scanners, workers, cancelled + TrackedHandles(scanners), nextHandle)
  {
    forall h | h in TrackedHandles(scanners)
      ensures h < nextHandle
    {
      var id :| id in scanners && scanners[id].cancel == h;
      assert h in workers;
    }
  }

  /** Starting a scanner under the next handle keeps the registry consistent. */
  lemma ConsistentAfterStart(scanners: map<string, ScannerEntry>, workers: map<Handle, ContainerInfo>,
                             cancelled: set<Handle>, h: Handle, info: ContainerInfo, now: Time)
    requires Consistent(scanners, workers, cancelled, h)
    ensures Consistent(scanners[info.id := ScannerEntry(NewScanner(info, now), h)], workers[h := info],
                       cancelled + (if info.id in scanners then {scanners[info.id].cancel} else {}), h + 1)
  {
    var s' := scanners[info.id := ScannerEntry(NewScanner(info, now), h)];
    var w' := workers[h := info];
    forall id | id in s'
      ensures s'[id].cancel in w' && w'[s'[id].cancel].id == id && s'[id].scanner.container.id == id
    {
      if id != info.id {
        assert s'[id] == scanners[id];
        assert scanners[id].cancel < h;
      }
    }
  }

  class LogScanManager {
    /** `Scanners`: the tracked scanner of each container id. */
    var scanners: map<string, ScannerEntry>
    /** Scanner goroutines that have not exited yet (what the WaitGroup counts),
        with the container each one streams. */
    var workers: map<Handle, ContainerInfo>
    /** The contexts whose cancel function has been called (calling it again changes nothing). */
    var cancelled: set<Handle>
    /** Whether the shared parent context `Ctx` is cancelled (process shutdown). */
    var parentCancelled: bool
    /** The next context handle `context.WithCancel` hands out. */
    var nextHandle: Handle
    /** The notifications sent so far, in order. */
    var outbox: seq<Notification>

    /** Every entry belongs to a live goroutine streaming that entry's container,
        and handles are handed out in order. */
    ghost predicate Valid()
      reads this
    {
      Consistent(scanners, workers, cancelled, nextHandle)
    }

    /** Whether the context of scanner `h` reports cancellation. */
    predicate Cancelled(h: Handle)
      reads this
    {
      parentCancelled || h in cancelled
    }

    /** `NewLogScanManager`: nothing tracked, nothing running. */
    constructor ()
      ensures Valid()
      ensures scanners == map[] && workers == map[] && cancelled == {}
      ensures !parentCancelled && nextHandle == 0 && outbox == []
    {
      scanners, workers, cancelled := map[], map[], {};
      parentCancelled, nextHandle, outbox := false, 0, [];
    }

    /** The whole effect of `startScanner(c, suppressNotify)` at time `now`. */
    twostate predicate StartedScanner(c: ContainerSummary, suppressNotify: bool, now: Time)
      reads this
    {
      var info := NewContainerInfo(c);
      var h := old(nextHandle);
      && scanners == old(scanners)[info.id := ScannerEntry(NewScanner(info, now), h)]
      && cancelled == old(cancelled) + (if info.id in old(scanners) then {old(scanners)[info.id].cancel} else {})
      && workers == old(workers)[h := info]
      && nextHandle == h + 1
      && outbox == old(outbox) + (if suppressNotify then [] else [ContainerStart(info)])
      && parentCancelled == old(parentCancelled)
    }

    /** `startScanner`: cancel and drop any scanner tracked for the container, then
        track and launch a fresh one; notify the start unless suppressed. */
    method StartScanner(c: ContainerSummary, suppressNotify: bool, now: Time)
      requires Valid()
      modifies this
      ensures Valid()
      ensures StartedScanner(c, suppressNotify, now)
      ensures NewContainerInfo(c).id in scanners && !Cancelled(scanners[NewContainerInfo(c).id].cancel)
              <== !parentCancelled
    {
      var info := NewContainerInfo(c);
      var h := nextHandle;
      var stale: set<Handle> := {};
      if info.id in scanners {
        stale := {scanners[info.id].cancel};
      }
      ConsistentAfterStart(scanners, workers, cancelled, h, info, now);
      cancelled := cancelled + stale;
      scanners := scanners[info.id := ScannerEntry(NewScanner(info, now), h)];
      nextHandle := h + 1;
      workers := workers[h := info];
      if !suppressNotify {
        outbox := outbox + [ContainerStart(info)];
      }
    }

    /** `StartAll`: list the running containers; start a scanner, without a start
        notification, for each one not ignored; then send one summary of them.
        A failed listing is returned and changes nothing. */
    method StartAll(listing: Result<seq<ContainerSummary>>, ignore: ContainerInfo -> bool, now: Time)
      returns (err: Option<Error>)
      requires Valid()
      modifies this
      ensures Valid()
      ensures listing.Failure? ==> err == Some(listing.error) && unchanged(this)
      ensures listing.Success? ==> err.None?
      ensures listing.Success? ==>
        var started := Eligible(listing.value, ignore);
        && StartedSoFar(old(scanners), old(workers), old(cancelled), old(nextHandle), started, now,
                        scanners, workers, cancelled, nextHandle)
        && outbox == old(outbox) + [ContainersSummary(started)]
        && parentCancelled == old(parentCancelled)
    {
      if listing.Failure? {
        return Some(listing.error);
      }
      var containers := listing.value;
      var active: seq<ContainerInfo> := [];
      var i := 0;
      while i < |containers|
        invariant 0 <= i <= |containers|
        invariant Valid()
        invariant active == Eligible(containers[..i], ignore)
        invariant StartedSoFar(old(scanners), old(workers), old(cancelled), old(nextHandle), active, now,
                               scanners, workers, cancelled, nextHandle)
        invariant outbox == old(outbox)
        invariant parentCancelled == old(parentCancelled)
      {
        var ci := NewContainerInfo(containers[i]);
        EligibleStep(containers, i, ignore);
        if ignore(ci) {
          i := i + 1;
          continue;
        }
        ghost var s, w, c, n := scanners, workers, cancelled, nextHandle;
        StartScanner(containers[i], true, now);
        StartedSoFarStep(old(scanners), old(workers), old(cancelled), old(nextHandle), active, ci, now,
                         s, w, c, n, scanners, workers, cancelled, nextHandle);
        active := active + [ci];
        i := i + 1;
      }
      assert containers[..i] == containers;
      outbox := outbox + [ContainersSummary(active)];
      return None;
    }

    /** `StopAll`: call the cancel function of every tracked scanner, then wait
        until every scanner goroutine has exited.  Goroutine `h`'s `Start` returns
        `results[h]`; the goroutines exit in an unspecified order, which `order`
        reports. */
    method StopAll(results: map<Handle, Option<Error>>) returns (ghost order: seq<Handle>)
      requires Valid()
      requires workers.Keys <= results.Keys
      modifies this
      ensures Valid()
      ensures workers == map[] && scanners == map[]
      ensures cancelled == old(cancelled) + TrackedHandles(old(scanners))
      ensures |outbox| >= |old(outbox)| && outbox[..|old(outbox)|] == old(outbox)
      ensures Exited(old(workers), results, parentCancelled, cancelled, order, map[], outbox[|old(outbox)|..])
      ensures parentCancelled == old(parentCancelled) && nextHandle == old(nextHandle)
    {
      CancelAll();
      order := WaitForWorkers(results);
    }

    /** The loop of `StopAll`: call the cancel function of every tracked scanner. */
    method CancelAll()
      requires Valid()
      modifies this
      ensures Valid()
      ensures cancelled == old(cancelled) + TrackedHandles(scanners)
      ensures scanners == old(scanners) && workers == old(workers) && outbox == old(outbox)
      ensures nextHandle == old(nextHandle) && parentCancelled == old(parentCancelled)
    {
      var stopped := CancelFuncs(scanners);
      ConsistentAfterCancel(scanners, workers, cancelled, nextHandle);
      cancelled := cancelled + stopped;
    }

    /** `m.wg.Wait()`: every scanner goroutine still running exits, in an
        unspecified order that `order` reports; goroutine `h`'s `Start` returns
        `results[h]`.  Once they are all gone no entry is left either. */
    method WaitForWorkers(results: map<Handle, Option<Error>>) returns (ghost order: seq<Handle>)
      requires Valid()
      requires workers.Keys <= results.Keys
      modifies this
      ensures Valid()
      ensures workers == map[] && scanners == map[]
      ensures |outbox| >= |old(outbox)| && outbox[..|old(outbox)|] == old(outbox)
      ensures Exited(old(workers), results, parentCancelled, cancelled, order, workers, outbox[|old(outbox)|..])
      ensures cancelled == old(cancelled) && parentCancelled == old(parentCancelled) && nextHandle == old(nextHandle)
    {
      order := [];
      ghost var sent: seq<Notification> := [];
      while workers != map[]
        invariant Valid()
        invariant workers.Keys <= results.Keys
        invariant outbox == old(outbox) + sent
        invariant Exited(old(workers), results, parentCancelled, cancelled, order, workers, sent)
        invariant cancelled == old(cancelled) && parentCancelled == old(parentCancelled) && nextHandle == old(nextHandle)
        decreases workers.Keys
      {
        ghost var notice;
        order, notice := ExitAny(results, old(workers), order, sent);
        NotesAppend(old(outbox), sent, notice);
        sent := sent + notice;
      }
      NotesAppend(old(outbox), sent, []);
      NoWorkersNoScanners(scanners, workers, cancelled, nextHandle);
    }

    /** One step of `WaitForWorkers`: some goroutine still running exits. */
    method ExitAny(results: map<Handle, Option<Error>>, ghost w0: map<Handle, ContainerInfo>,
                   ghost order: seq<Handle>, ghost sent: seq<Notification>)
      returns (ghost order': seq<Handle>, ghost notice: seq<Notification>)
      requires Valid() && workers != map[] && workers.Keys <= results.Keys
      requires Exited(w0, results, parentCancelled, cancelled, order, workers, sent)
      modifies this
      ensures Valid() && workers.Keys < old(workers.Keys)
      ensures outbox == old(outbox) + notice
      ensures Exited(w0, results, parentCancelled, cancelled, order', workers, sent + notice)
      ensures cancelled == old(cancelled) && parentCancelled == old(parentCancelled) && nextHandle == old(nextHandle)
    {
      var h :| h in workers;
      ghost var remaining := workers;
      notice := ExitNotice(workers[h], results[h], Cancelled(h));
      WorkerExit(h, results[h]);
      assert workers == remaining - {h};
      ExitedStep(w0, results, parentCancelled, cancelled, order, remaining, h, sent, sent + notice);
      order' := order + [h];
    }

    /** What a scanner goroutine does once `Start` has returned `result`: report an
        error stop if there was an error, delete the entry under its container id
        (whichever scanner that entry now belongs to), and report a plain stop
        unless its context was cancelled. */
    method WorkerExit(h: Handle, result: Option<Error>)
      requires Valid()
      requires h in workers
      modifies this
      ensures Valid()
      ensures var info := old(workers)[h];
        && scanners == old(scanners) - {info.id}
        && workers == old(workers) - {h}
        && outbox == old(outbox) + ExitNotice(info, result, old(Cancelled(h)))
        && cancelled == old(cancelled) && nextHandle == old(nextHandle)
        && parentCancelled == old(parentCancelled)
    {
      var info := workers[h];
      if result.Some? {
        outbox := outbox + [ContainerStopWithError(info)];
      }
      scanners := scanners - {info.id};
      if !(parentCancelled || h in cancelled) {
        outbox := outbox + [ContainerStop(info)];
      }
      workers := workers - {h};
    }

    /** The body of the event loop for one container event.  For "start" the
        containers are listed again (`listing`); a failed listing skips the event. */
    method HandleEvent(ev: Event, listing: Result<seq<ContainerSummary>>, ignore: ContainerInfo -> bool, now: Time)
      requires Valid()
      modifies this
      ensures Valid()
      ensures ev.action == "start" && listing.Success? && FirstToStart(listing.value, ev.actorId, ignore).Some? ==>
                StartedScanner(listing.value[FirstToStart(listing.value, ev.actorId, ignore).value], false, now)
      ensures ev.action == "start" && (listing.Failure? || FirstToStart(listing.value, ev.actorId, ignore).None?) ==>
                unchanged(this)
      ensures (ev.action == "die" || ev.action == "destroy") && ev.actorId in old(scanners) ==>
                && scanners == old(scanners) - {ev.actorId}
                && cancelled == old(cancelled) + {old(scanners)[ev.actorId].cancel}
                && workers == old(workers) && outbox == old(outbox) && nextHandle == old(nextHandle)
                && parentCancelled == old(parentCancelled)
      ensures (ev.action == "die" || ev.action == "destroy") && ev.actorId !in old(scanners) ==> unchanged(this)
      ensures ev.action !in {"start", "die", "destroy"} ==> unchanged(this)
    {
      if ev.action == "start" {
        if listing.Failure? {
          return;
        }
        var containers := listing.value;
        for i := 0 to |containers|
          invariant forall k :: 0 <= k < i ==> containers[k].id != ev.actorId || ignore(NewContainerInfo(containers[k]))
          invariant unchanged(this)
        {
          var c := containers[i];
          if c.id == ev.actorId {
            var ci := NewContainerInfo(c);
            if ignore(ci) {
              continue;
            }
            FirstToStartIs(containers, ev.actorId, ignore, i);
            StartScanner(c, false, now);
            break;
          }
        }
      } else if ev.action == "die" || ev.action == "destroy" {
        if ev.actorId in scanners {
          var s := scanners[ev.actorId];
          cancelled := cancelled + {s.cancel};
          scanners := scanners - {ev.actorId};
        }
      }
    }

    /** The parent context is cancelled (the process received an interrupt or SIGTERM). */
    method CancelParent()
      requires Valid()
      modifies this`parentCancelled
      ensures Valid() && parentCancelled
    {
      parentCancelled := true;
    }
  }

  /** The goroutines of `w0` other than those of `remaining` have exited, in the
      order `order`, and sent the notifications `notes`. */
  ghost predicate Exited(w0: map<Handle, ContainerInfo>, results: map<Handle, Option<Error>>,
                         parentCancelled: bool, cancelled: set<Handle>,
                         order: seq<Handle>, remaining: map<Handle, ContainerInfo>, notes: seq<Notification>)
  {
    && (forall h :: h in remaining ==> h in w0 && remaining[h] == w0[h])
    && (forall h :: h in order <==> h in w0 && h !in remaining)
    && (forall j, k :: 0 <= j < k < |order| ==> order[j] != order[k])
    && notes == ExitNotices(order, w0, results, parentCancelled, cancelled)
  }

  lemma ExitedStep(w0: map<Handle, ContainerInfo>, results: map<Handle, Option<Error>>,
                   parentCancelled: bool, cancelled: set<Handle>,
                   order: seq<Handle>, remaining: map<Handle, ContainerInfo>, h: Handle,
                   notes: seq<Notification>, notes': seq<Notification>)
    requires Exited(w0, results, parentCancelled, cancelled, order, remaining, notes)
    requires h in remaining && h in results
    requires notes' == notes + ExitNotice(remaining[h], results[h], parentCancelled || h in cancelled)
    ensures Exited(w0, results, parentCancelled, cancelled, order + [h], remaining - {h}, notes')
  {
    ExitNoticesStep(order, h, w0, results, parentCancelled, cancelled);
  }

  /** The notifications a scanner goroutine sends when its `Start` returns `result`. */
  function ExitNotice(info: ContainerInfo, result: Option<Error>, wasCancelled: bool): seq<Notification>
  {
    (if result.Some? then [ContainerStopWithError(info)] else [])
      + (if wasCancelled then [] else [ContainerStop(info)])
  }

  /** The notifications of the goroutines of `w0` exiting in the order `order`. */
  function ExitNotices(order: seq<Handle>, w0: map<Handle, ContainerInfo>, results: map<Handle, Option<Error>>,
                       parentCancelled: bool, cancelled: set<Handle>): seq<Notification>
  {
    if order == [] then []
    else
      var n := |order| - 1;
      var h := order[n];
      ExitNotices(order[..n], w0, results, parentCancelled, cancelled)
        + (if h in w0 && h in results then ExitNotice(w0[h], results[h], parentCancelled || h in cancelled) else [])
  }

  lemma ExitNoticesStep(order: seq<Handle>, h: Handle, w0: map<Handle, ContainerInfo>,
                        results: map<Handle, Option<Error>>, parentCancelled: bool, cancelled: set<Handle>)
    ensures ExitNotices(order + [h], w0, results, parentCancelled, cancelled)
            == ExitNotices(order, w0, results, parentCancelled, cancelled)
               + (if h in w0 && h in results then ExitNotice(w0[h], results[h], parentCancelled || h in cancelled) else [])
  {
    assert (order + [h])[..|order|] == order;
  }

  /** Goroutine `h` sends `note` when it exits. */
  ghost predicate Explains(h: Handle, note: Notification, w0: map<Handle, ContainerInfo>,
                           results: map<Handle, Option<Error>>, parentCancelled: bool, cancelled: set<Handle>)
  {
    && h in w0 && h in results
    && ((note == ContainerStopWithError(w0[h]) && results[h].Some?)
        || (note == ContainerStop(w0[h]) && !parentCancelled && h !in cancelled))
  }

  ghost predicate ExplainedBy(note: Notification, order: seq<Handle>, w0: map<Handle, ContainerInfo>,
                              results: map<Handle, Option<Error>>, parentCancelled: bool, cancelled: set<Handle>)
  {
    exists h :: h in order && Explains(h, note, w0, results, parentCancelled, cancelled)
  }

  /** Only a scanner whose `Start` returned an error reports an error stop, and only
      an uncancelled one a plain stop: a cancelled scanner that ends without an
      error exits silently. */
  lemma {:induction false} ExitNoticesExplained(order: seq<Handle>, w0: map<Handle, ContainerInfo>,
                                               results: map<Handle, Option<Error>>, parentCancelled: bool, cancelled: set<Handle>)
    ensures forall k :: 0 <= k < |ExitNotices(order, w0, results, parentCancelled, cancelled)| ==>
              ExplainedBy(ExitNotices(order, w0, results, parentCancelled, cancelled)[k], order, w0, results, parentCancelled, cancelled)
  {
    if order != [] {
      var n := |order| - 1;
      ExitNoticesExplained(order[..n], w0, results, parentCancelled, cancelled);
      var prefix := ExitNotices(order[..n], w0, results, parentCancelled, cancelled);
      var notes := ExitNotices(order, w0, results, parentCancelled, cancelled);
      forall k | 0 <= k < |notes|
        ensures ExplainedBy(notes[k], order, w0, results, parentCancelled, cancelled)
      {
        if k < |prefix| {
          assert ExplainedBy(prefix[k], order[..n], w0, results, parentCancelled, cancelled);
          var h :| h in order[..n] && Explains(h, prefix[k], w0, results, parentCancelled, cancelled);
          assert notes[k] == prefix[k];
          assert h in order;
        } else {
          assert Explains(order[n], notes[k], w0, results, parentCancelled, cancelled);
          assert order[n] in order;
        }
      }
    }
  }

  /** The cancel functions of the tracked scanners. */
  function TrackedHandles(scanners: map<string, ScannerEntry>): set<Handle>
  {
    set id | id in scanners :: scanners[id].cancel
  }

  /** The cancel functions that the loop of `StopAll` calls, one per tracked scanner. */
  method CancelFuncs(tracked: map<string, ScannerEntry>) returns (stopped: set<Handle>)
    ensures stopped == TrackedHandles(tracked)
  {
    stopped := {};
    var pending := tracked.Keys;
    while pending != {}
      invariant pending <= tracked.Keys
      invariant stopped == TrackedHandles(tracked - pending)
      decreases pending
    {
      var id :| id in pending;
      TrackedStep(tracked, pending, id);
      stopped := stopped + {tracked[id].cancel};
      pending := pending - {id};
    }
    assert tracked - {} == tracked;
  }

  /** Appending notifications in two steps is appending them at once; what was
      appended to `base` is found after it. */
  lemma NotesAppend(base: seq<Notification>, sent: seq<Notification>, notice: seq<Notification>)
    ensures base + sent + notice == base + (sent + notice)
    ensures (base + sent)[|base|..] == sent
  {
  }

  /** With no goroutine left, no entry is left either. */
  lemma NoWorkersNoScanners(scanners: map<string, ScannerEntry>, workers: map<Handle, ContainerInfo>,
                            cancelled: set<Handle>, nextHandle: Handle)
    requires Consistent(scanners, workers, cancelled, nextHandle) && workers == map[]
    ensures scanners == map[]
  {
    assert forall id :: id in scanners ==> scanners[id].cancel in workers;
  }

  lemma TrackedStep(m: map<string, ScannerEntry>, pending: set<string>, id: string)
    requires id in pending && id in m
    ensures TrackedHandles(m - (pending - {id})) == TrackedHandles(m - pending) + {m[id].cancel}
  {
    var after := m - (pending - {id});
    assert id in after;
    forall h | h in TrackedHandles(after)
      ensures h in TrackedHandles(m - pending) + {m[id].cancel}
    {
      var x :| x in after && after[x].cancel == h;
      if x != id {
        assert x in m - pending;
      }
    }
    forall h | h in TrackedHandles(m - pending)
      ensures h in TrackedHandles(after)
    {
      var x :| x in m - pending && (m - pending)[x].cancel == h;
      assert x in after;
    }
  }

  /** The map and the cancelled contexts that starting scanners for `infos` in
      order, the k-th with context handle `base + k`, leaves behind from the map
      `m0`: each start replaces the entry under its container id and cancels the
      entry it replaces. */
  function StartRun(m0: map<string, ScannerEntry>, base: Handle, infos: seq<ContainerInfo>, now: Time)
    : (map<string, ScannerEntry>, set<Handle>)
  {
    if infos == [] then (m0, {})
    else
      var n := |infos| - 1;
      var (m, stopped) := StartRun(m0, base, infos[..n], now);
      var id := infos[n].id;
      (m[id := ScannerEntry(NewScanner(infos[n], now), base + n)], stopped + Superseded(m, id))
  }

  /** The goroutines alive after starting scanners for `infos` in order, the k-th
      with handle `base + k`, on top of the goroutines `w0`. */
  function SpawnRun(w0: map<Handle, ContainerInfo>, base: Handle, infos: seq<ContainerInfo>): map<Handle, ContainerInfo>
  {
    if infos == [] then w0
    else
      var n := |infos| - 1;
      SpawnRun(w0, base, infos[..n])[base + n := infos[n]]
  }

  /** The state after `StartAll` has started scanners for `infos`. */
  ghost predicate StartedSoFar(s0: map<string, ScannerEntry>, w0: map<Handle, ContainerInfo>, c0: set<Handle>,
                               base: Handle, infos: seq<ContainerInfo>, now: Time,
                               s: map<string, ScannerEntry>, w: map<Handle, ContainerInfo>, c: set<Handle>, n: Handle)
  {
    && s == StartRun(s0, base, infos, now).0
    && c == c0 + StartRun(s0, base, infos, now).1
    && w == SpawnRun(w0, base, infos)
    && n == base + |infos|
  }

  lemma StartedSoFarStep(s0: map<string, ScannerEntry>, w0: map<Handle, ContainerInfo>, c0: set<Handle>,
                         base: Handle, infos: seq<ContainerInfo>, ci: ContainerInfo, now: Time,
                         s: map<string, ScannerEntry>, w: map<Handle, ContainerInfo>, c: set<Handle>, n: Handle,
                         s': map<string, ScannerEntry>, w': map<Handle, ContainerInfo>, c': set<Handle>, n': Handle)
    requires StartedSoFar(s0, w0, c0, base, infos, now, s, w, c, n)
    requires s' == s[ci.id := ScannerEntry(NewScanner(ci, now), n)]
    requires c' == c + (if ci.id in s then {s[ci.id].cancel} else {})
    requires w' == w[n := ci]
    requires n' == n + 1
    ensures StartedSoFar(s0, w0, c0, base, infos + [ci], now, s', w', c', n')
  {
    StartRunStep(s0, w0, base, infos, ci, now);
  }

  lemma StartRunStep(m0: map<string, ScannerEntry>, w0: map<Handle, ContainerInfo>, base: Handle,
                     infos: seq<ContainerInfo>, ci: ContainerInfo, now: Time)
    ensures var (m, stopped) := StartRun(m0, base, infos, now);
      StartRun(m0, base, infos + [ci], now)
        == (m[ci.id := ScannerEntry(NewScanner(ci, now), base + |infos|)],
            stopped + (if ci.id in m then {m[ci.id].cancel} else {}))
    ensures SpawnRun(w0, base, infos + [ci]) == SpawnRun(w0, base, infos)[base + |infos| := ci]
  {
    var infos' := infos + [ci];
    assert infos'[..|infos|] == infos;
  }

  /** The entries a run of starts adds, without the map it starts from: the later of
      two containers with the same id wins. */
  function Launched(base: Handle, infos: seq<ContainerInfo>, now: Time): map<string, ScannerEntry>
  {
    if infos == [] then map[]
    else
      var n := |infos| - 1;
      Launched(base, infos[..n], now)[infos[n].id := ScannerEntry(NewScanner(infos[n], now), base + n)]
  }

  /** The map a run of starts leaves is the map it started from overridden by the
      entries the run adds. */
  lemma {:induction false} StartRunOverrides(m0: map<string, ScannerEntry>, base: Handle, infos: seq<ContainerInfo>, now: Time)
    ensures StartRun(m0, base, infos, now).0 == m0 + Launched(base, infos, now)
  {
    if infos != [] {
      var n := |infos| - 1;
      StartRunOverrides(m0, base, infos[..n], now);
      var e := ScannerEntry(NewScanner(infos[n], now), base + n);
      UnionUpdate(m0, Launched(base, infos[..n], now), infos[n].id, e);
    }
  }

  lemma UnionUpdate<K, V>(a: map<K, V>, b: map<K, V>, k: K, v: V)
    ensures a + b[k := v] == (a + b)[k := v]
  {
  }

  /** Each container id has at most one context handle among the entries. */
  ghost predicate DistinctHandles(m: map<string, ScannerEntry>)
  {
    forall a, b :: a in m && b in m && m[a].cancel == m[b].cancel ==> a == b
  }

  /** The context handles of `[lo, hi)`. */
  function HandleRange(lo: Handle, hi: Handle): set<Handle>
    decreases hi - lo
  {
    if hi <= lo then {} else HandleRange(lo, hi - 1) + {hi - 1}
  }

  lemma {:induction false} HandleRangeMembers(lo: Handle, hi: Handle)
    ensures forall h :: h in HandleRange(lo, hi) <==> lo <= h < hi
    decreases hi - lo
  {
    if lo < hi {
      HandleRangeMembers(lo, hi - 1);
    }
  }

  /** Replacing the entry under `id` by one with a handle newer than all others
      untracks the replaced handle and tracks the new one. */
  lemma TrackedAfterReplace(m: map<string, ScannerEntry>, id: string, e: ScannerEntry)
    requires DistinctHandles(m)
    requires forall x :: x in m ==> m[x].cancel < e.cancel
    ensures DistinctHandles(m[id := e])
    ensures TrackedHandles(m[id := e])
            == (TrackedHandles(m) - (if id in m then {m[id].cancel} else {})) + {e.cancel}
  {
    var m' := m[id := e];
    var gone: set<Handle> := if id in m then {m[id].cancel} else {};
    forall h | h in TrackedHandles(m')
      ensures h in (TrackedHandles(m) - gone) + {e.cancel}
    {
      var x :| x in m' && m'[x].cancel == h;
      if x != id {
        assert m[x].cancel == h;
      }
    }
    forall h | h in TrackedHandles(m) - gone
      ensures h in TrackedHandles(m')
    {
      var x :| x in m && m[x].cancel == h;
      assert m'[x].cancel == h;
    }
    assert m'[id].cancel == e.cancel;
  }

  /** A run of starts keeps one handle per container id, all below the next free handle. */
  lemma {:induction false} StartRunHandles(m0: map<string, ScannerEntry>, base: Handle, infos: seq<ContainerInfo>, now: Time)
    requires DistinctHandles(m0)
    requires forall id :: id in m0 ==> m0[id].cancel < base
    ensures DistinctHandles(StartRun(m0, base, infos, now).0)
    ensures forall id :: id in StartRun(m0, base, infos, now).0 ==> StartRun(m0, base, infos, now).0[id].cancel < base + |infos|
  {
    if infos != [] {
      var n := |infos| - 1;
      StartRunHandles(m0, base, infos[..n], now);
      var m := StartRun(m0, base, infos[..n], now).0;
      var e := ScannerEntry(NewScanner(infos[n], now), base + n);
      assert StartRun(m0, base, infos, now).0 == m[infos[n].id := e];
      TrackedAfterReplace(m, infos[n].id, e);
    }
  }

  /** A run of starts cancels exactly the scanners it supersedes: those tracked
      before it, or started by it, that are no longer tracked after it. */
  lemma {:induction false} StartRunCancelsSuperseded(m0: map<string, ScannerEntry>, base: Handle, infos: seq<ContainerInfo>, now: Time)
    requires DistinctHandles(m0)
    requires forall id :: id in m0 ==> m0[id].cancel < base
    ensures TrackedHandles(StartRun(m0, base, infos, now).0) <= TrackedHandles(m0) + HandleRange(base, base + |infos|)
    ensures StartRun(m0, base, infos, now).1
            == (TrackedHandles(m0) + HandleRange(base, base + |infos|)) - TrackedHandles(StartRun(m0, base, infos, now).0)
  {
    if infos != [] {
      var n := |infos| - 1;
      StartRunCancelsSuperseded(m0, base, infos[..n], now);
      StartRunHandles(m0, base, infos[..n], now);
      var m := StartRun(m0, base, infos[..n], now).0;
      var stopped := StartRun(m0, base, infos[..n], now).1;
      var id := infos[n].id;
      var e := ScannerEntry(NewScanner(infos[n], now), base + n);
      assert StartRun(m0, base, infos, now).0 == m[id := e];
      assert StartRun(m0, base, infos, now).1 == stopped + Superseded(m, id);
      FreshHandle(m0, base, n);
      var r := HandleRange(base, base + n);
      assert HandleRange(base, base + |infos|) == r + {base + n};
      OneStartCancels(m, stopped, TrackedHandles(m0), r, id, e);
    }
  }

  /** The handle a start for `id` untracks, if any. */
  function Superseded(m: map<string, ScannerEntry>, id: string): set<Handle>
  {
    if id in m then {m[id].cancel} else {}
  }

  /** One start keeps "cancelled are exactly the superseded handles". */
  lemma OneStartCancels(m: map<string, ScannerEntry>, stopped: set<Handle>, t0: set<Handle>, r: set<Handle>,
                        id: string, e: ScannerEntry)
    requires DistinctHandles(m)
    requires forall x :: x in m ==> m[x].cancel < e.cancel
    requires TrackedHandles(m) <= t0 + r && stopped == (t0 + r) - TrackedHandles(m)
    requires e.cancel !in t0 + r
    ensures TrackedHandles(m[id := e]) <= t0 + (r + {e.cancel})
    ensures stopped + Superseded(m, id) == (t0 + (r + {e.cancel})) - TrackedHandles(m[id := e])
  {
    TrackedAfterReplace(m, id, e);
    assert Superseded(m, id) <= TrackedHandles(m) by {
      if id in m {
        assert m[id].cancel in TrackedHandles(m);
      }
    }
    SupersededStep(t0, r, TrackedHandles(m), stopped, Superseded(m, id), e.cancel);
  }

  /** The next handle of a run is neither tracked before the run nor used by it. */
  lemma FreshHandle(m0: map<string, ScannerEntry>, base: Handle, n: nat)
    requires forall id :: id in m0 ==> m0[id].cancel < base
    ensures base + n !in TrackedHandles(m0) && base + n !in HandleRange(base, base + n)
  {
    HandleRangeMembers(base, base + n);
  }

  /** Set bookkeeping of one start: `h` is new, `gone` is the handle it untracks. */
  lemma SupersededStep(t0: set<Handle>, r: set<Handle>, tracked: set<Handle>, stopped: set<Handle>,
                       gone: set<Handle>, h: Handle)
    requires stopped == (t0 + r) - tracked && gone <= tracked <= t0 + r && h !in t0 + r
    ensures (tracked - gone) + {h} <= t0 + (r + {h})
    ensures stopped + gone == (t0 + (r + {h})) - ((tracked - gone) + {h})
  {
  }

  lemma EligibleStep(containers: seq<ContainerSummary>, i: nat, ignore: ContainerInfo -> bool)
    requires i < |containers|
    ensures var ci := NewContainerInfo(containers[i]);
      Eligible(containers[..i + 1], ignore) == Eligible(containers[..i], ignore) + (if ignore(ci) then [] else [ci])
  {
    assert containers[..i + 1][..i] == containers[..i];
  }

  /** Only containers `shouldIgnoreContainer` lets through are started, each listed one at most once. */
  lemma {:induction false} EligibleNotIgnored(containers: seq<ContainerSummary>, ignore: ContainerInfo -> bool)
    ensures |Eligible(containers, ignore)| <= |containers|
    ensures forall k :: 0 <= k < |Eligible(containers, ignore)| ==> !ignore(Eligible(containers, ignore)[k])
  {
    if containers != [] {
      EligibleNotIgnored(containers[..|containers| - 1], ignore);
    }
  }

  /** Starting scanners for `infos` tracks exactly their ids. */
  lemma {:induction false} LaunchedKeys(base: Handle, infos: seq<ContainerInfo>, now: Time)
    ensures forall id :: id in Launched(base, infos, now) <==> exists k :: 0 <= k < |infos| && infos[k].id == id
  {
    if infos != [] {
      var n := |infos| - 1;
      LaunchedKeys(base, infos[..n], now);
      forall id | id in Launched(base, infos, now)
        ensures exists k :: 0 <= k < |infos| && infos[k].id == id
      {
        if id != infos[n].id {
          assert id in Launched(base, infos[..n], now);
          var k :| 0 <= k < |infos[..n]| && infos[..n][k].id == id;
          assert infos[k].id == id;
        }
      }
      forall id | exists k :: 0 <= k < |infos| && infos[k].id == id
        ensures id in Launched(base, infos, now)
      {
        var k :| 0 <= k < |infos| && infos[k].id == id;
        if k < n {
          assert infos[..n][k].id == id;
        }
      }
    }
  }

  /** Each started entry streams from `now` with no retry limit, for a container
      with that id, under a handle of the new range. */
  lemma {:induction false} LaunchedEntries(base: Handle, infos: seq<ContainerInfo>, now: Time)
    ensures forall id :: id in Launched(base, infos, now) ==>
              var e := Launched(base, infos, now)[id];
              && e.scanner.container.id == id && e.scanner.since == now && e.scanner.maxRetry == 0
              && e.scanner.reconnectDelay == 5 * Second && e.scanner.container in infos
              && base <= e.cancel < base + |infos| && infos[e.cancel - base] == e.scanner.container
  {
    if infos != [] {
      var n := |infos| - 1;
      var prev := Launched(base, infos[..n], now);
      LaunchedEntries(base, infos[..n], now);
      forall id | id in Launched(base, infos, now)
        ensures var e := Launched(base, infos, now)[id];
                && e.scanner.container.id == id && e.scanner.since == now && e.scanner.maxRetry == 0
                && e.scanner.reconnectDelay == 5 * Second && e.scanner.container in infos
                && base <= e.cancel < base + |infos| && infos[e.cancel - base] == e.scanner.container
      {
        if id != infos[n].id {
          var e := prev[id];
          assert Launched(base, infos, now)[id] == e;
          assert infos[..n][e.cancel - base] == infos[e.cancel - base];
        }
      }
    }
  }

  /** If no container before position `i` qualifies and container `i` does,
      `FirstToStart` picks `i`. */
  lemma {:induction false} FirstToStartIs(containers: seq<ContainerSummary>, id: string, ignore: ContainerInfo -> bool, i: nat)
    requires i < |containers| && containers[i].id == id && !ignore(NewContainerInfo(containers[i]))
    requires forall k :: 0 <= k < i ==> containers[k].id != id || ignore(NewContainerInfo(containers[k]))
    ensures FirstToStart(containers, id, ignore) == Some(i)
  {
    if i > 0 {
      FirstToStartIs(containers[1..], id, ignore, i - 1);
    }
  }

  /** Two starts for the same container leave one tracked scanner, the second, and
      cancel the first. */
  method StartTwice(c: ContainerSummary, now: Time) returns (m: LogScanManager)
    ensures fresh(m) && m.Valid()
    ensures m.scanners.Keys == {NewContainerInfo(c).id}
    ensures m.scanners[NewContainerInfo(c).id].cancel == 1
    ensures m.cancelled == {0}
    ensures m.workers.Keys == {0, 1}
  {
    m := new LogScanManager();
    m.StartScanner(c, false, now);
    m.StartScanner(c, false, now);
  }

  /** The first scanner's goroutine exiting after a replacement deletes the
      replacement's entry: the second scanner keeps running, uncancelled and
      untracked, so a later "die" event for the container cancels nothing. */
  method ReplacementLostOnOldExit(c: ContainerSummary, now: Time, result: Option<Error>) returns (m: LogScanManager)
    ensures fresh(m) && m.Valid()
    ensures NewContainerInfo(c).id !in m.scanners
    ensures 1 in m.workers && !m.Cancelled(1)
  {
    m := new LogScanManager();
    m.StartScanner(c, false, now);
    m.StartScanner(c, false, now);
    m.WorkerExit(0, result);
    m.HandleEvent(Event("die", NewContainerInfo(c).id), Success([]), _ => false, now);
  }
}
