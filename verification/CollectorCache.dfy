/** The collector cache: one file per collector, keyed by a fingerprint of the host, and the history of when
  each source was last complete. */
module CollectorCache {
  import opened Durable
  import opened Options
  import opened SpoolLimit
  import opened Identity
  import opened Inventory

  const CACHE_FORMAT_VERSION := 2
  const FAILED_FINGERPRINT := "fingerprint_failed"

  /** The state of a host, numbered. */
  type Host = nat

  datatype Finding = Finding(source: Source, status: Status, diagnostic: Option<string>)

  /** What a collector finds, before its reports are stamped with the time. */
  datatype Findings = Findings(entries: seq<Entry>, warnings: seq<string>, complete: bool, sources: seq<Finding>)

  datatype CollectorResult = CollectorResult(entries: seq<Entry>, warnings: seq<string>, complete: bool,
                                             sources: seq<SourceReport>)

  /** What the collectors of an agent version see and find on a host. */
  datatype World = World(fingerprint: (string, Host) -> string, collect: (string, Host) -> Findings,
                         render: nat -> string) {
    /** The fingerprint covers everything the collector depends on. */
    ghost predicate Faithful() {
      forall version: string, g: Host, h: Host ::
        fingerprint(version, g) == fingerprint(version, h) ==> collect(version, g) == collect(version, h)
    }
  }

  function Stamp(w: World, f: Findings, now: nat): CollectorResult {
    CollectorResult(f.entries, f.warnings, f.complete,
      seq(|f.sources|, i requires 0 <= i < |f.sources| =>
        SourceReport(f.sources[i].source, f.sources[i].status, w.render(now),
                     if f.sources[i].status.Complete? then Some(w.render(now)) else None, f.sources[i].diagnostic)))
  }

  datatype File =
    | Missing
    | Unreadable
    | Cached(format: nat, version: string, fingerprint: string, storedAt: nat, result: CollectorResult)

  predicate Expired(storedAt: nat, now: nat, maxAge: nat) {
    storedAt > now || SatSub(now, storedAt) >= maxAge
  }

  predicate Hits(file: File, version: string, fingerprint: string, now: nat, maxAge: nat) {
    && file.Cached? && file.format == CACHE_FORMAT_VERSION && file.version == version
    && file.fingerprint == fingerprint && file.result.complete && !Expired(file.storedAt, now, maxAge)
  }

  function DegradedReport(r: SourceReport, empty: bool): SourceReport {
    r.(status := if empty then Status.Failed else Partial, lastCompleteAt := None,
       diagnostic := Some(FAILED_FINGERPRINT))
  }

  /** A result whose fingerprint could not be taken: kept, but never called complete. */
  function Degraded(r: CollectorResult): CollectorResult {
    r.(complete := false, warnings := r.warnings + [FAILED_FINGERPRINT],
       sources := seq(|r.sources|, i requires 0 <= i < |r.sources| => DegradedReport(r.sources[i], r.entries == [])))
  }

  // ---------------------------------------------------------------- one call

  /** One collection: the host as fingerprinted and as collected, the agent's version, the time, whether the
      cache directory could be opened and the fingerprint taken, and how the write to the cache file ends. */
  datatype Call = Call(seen: Host, found: Host, version: string, now: nat, cached: bool, printed: bool, io: Io)

  function Looked(w: World, maxAge: nat, file: File, call: Call): Option<CollectorResult> {
    if call.cached && call.printed && Hits(file, call.version, w.fingerprint(call.version, call.seen), call.now, maxAge)
    then Some(file.result) else None
  }

  function Collected(w: World, call: Call): CollectorResult {
    Stamp(w, w.collect(call.version, call.found), call.now)
  }

  function FileAfter(w: World, maxAge: nat, file: File, call: Call): File {
    if !call.cached || !call.printed || Looked(w, maxAge, file, call).Some? then file
    else
      var left := if file.Unreadable? then Missing else file;
      if Collected(w, call).complete && !call.io.Failed? then
        Cached(CACHE_FORMAT_VERSION, call.version, w.fingerprint(call.version, call.seen), call.now, Collected(w, call))
      else left
  }

  function RuntimeResult(w: World, maxAge: nat, file: File, call: Call): CollectorResult {
    var looked := Looked(w, maxAge, file, call);
    if looked.Some? then looked.value
    else if call.printed then Collected(w, call) else Degraded(Collected(w, call))
  }

  function PlatformResult(w: World, maxAge: nat, file: File, call: Call): CollectorResult {
    var looked := Looked(w, maxAge, file, call);
    if looked.Some? then looked.value else Collected(w, call)
  }

  // ---------------------------------------------------------------- the program

  class InventoryCache {
    const w: World
    const maxAge: nat
    var file: File

    constructor (w: World, maxAge: nat, file: File)
      ensures this.w == w && this.maxAge == maxAge && this.file == file
    {
      this.w, this.maxAge, this.file := w, maxAge, file;
    }

    method Load(version: string, fingerprint: string, now: nat) returns (readable: bool, hit: Option<CollectorResult>)
      ensures readable <==> !file.Unreadable?
      ensures hit == if Hits(file, version, fingerprint, now, maxAge) then Some(file.result) else None
    {
      match file
      case Missing => return true, None;
      case Unreadable => return false, None;
      case Cached(format, v, f, storedAt, result) =>
        if format != CACHE_FORMAT_VERSION || v != version || f != fingerprint || !result.complete
           || Expired(storedAt, now, maxAge) {
          return true, None;
        }
        return true, Some(result);
    }

    /** An unreadable file is removed and counts as a miss. */
    method LoadOrMiss(version: string, fingerprint: string, now: nat) returns (hit: Option<CollectorResult>)
      modifies this`file
      ensures hit == if Hits(old(file), version, fingerprint, now, maxAge) then Some(old(file).result) else None
      ensures file == if old(file).Unreadable? then Missing else old(file)
    {
      var readable;
      readable, hit := Load(version, fingerprint, now);
      if !readable {
        file := Missing;
      }
    }

    /** Only complete results are stored. */
    method Store(version: string, fingerprint: string, now: nat, result: CollectorResult, io: Io)
      modifies this`file
      ensures file == if result.complete && !io.Failed?
                      then Cached(CACHE_FORMAT_VERSION, version, fingerprint, now, result)
                      else old(file)
    {
      if !result.complete {
        return;
      }
      if !io.Failed? {
        file := Cached(CACHE_FORMAT_VERSION, version, fingerprint, now, result);
      }
    }

    method Degrade(r: CollectorResult) returns (d: CollectorResult)
      ensures d == Degraded(r)
      ensures !d.complete && d.entries == r.entries && |d.sources| == |r.sources|
      ensures forall i :: 0 <= i < |d.sources| ==>
                && d.sources[i].source == r.sources[i].source && d.sources[i].lastCompleteAt.None?
                && d.sources[i].status == if r.entries == [] then Status.Failed else Partial
    {
      var sources := r.sources;
      for i := 0 to |sources|
        invariant |sources| == |r.sources|
        invariant forall k :: 0 <= k < i ==> sources[k] == DegradedReport(r.sources[k], r.entries == [])
        invariant forall k :: i <= k < |sources| ==> sources[k] == r.sources[k]
      {
        sources := sources[i := sources[i].(status := if r.entries == [] then Status.Failed else Partial,
                                            lastCompleteAt := None, diagnostic := Some(FAILED_FINGERPRINT))];
      }
      d := r.(complete := false, warnings := r.warnings + [FAILED_FINGERPRINT], sources := sources);
    }

    method CollectRuntimeCached(call: Call) returns (result: CollectorResult)
      modifies this`file
      ensures result == RuntimeResult(w, maxAge, old(file), call)
      ensures file == FileAfter(w, maxAge, old(file), call)
    {
      var fingerprint := if call.printed then Some(w.fingerprint(call.version, call.seen)) else None;
      if call.cached && fingerprint.Some? {
        var hit := LoadOrMiss(call.version, fingerprint.value, call.now);
        if hit.Some? {
          return hit.value;
        }
      }
      result := Stamp(w, w.collect(call.version, call.found), call.now);
      if fingerprint.None? {
        result := Degrade(result);
      }
      if call.cached && fingerprint.Some? {
        Store(call.version, fingerprint.value, call.now, result, call.io);
      }
    }

    /** The platform collector does not degrade its result when no fingerprint could be taken. */
    method CollectPlatformCached(call: Call) returns (result: CollectorResult)
      modifies this`file
      ensures result == PlatformResult(w, maxAge, old(file), call)
      ensures file == FileAfter(w, maxAge, old(file), call)
    {
      var lookup: Option<CollectorResult> := None;
      var printed := call.cached && call.printed;
      if printed {
        lookup := LoadOrMiss(call.version, w.fingerprint(call.version, call.seen), call.now);
      }
      if lookup.Some? {
        return lookup.value;
      }
      result := Stamp(w, w.collect(call.version, call.found), call.now);
      if printed {
        Store(call.version, w.fingerprint(call.version, call.seen), call.now, result, call.io);
      }
    }
  }

  // ---------------------------------------------------------------- the cache is invisible

  /** What is on disk was found, completely, on a host with that fingerprint. */
  ghost predicate Truthful(w: World, file: File) {
    file.Cached? && file.format == CACHE_FORMAT_VERSION ==>
      exists h: Host :: Produced(w, file, h)
  }

  predicate Produced(w: World, file: File, h: Host)
    requires file.Cached?
  {
    && file.fingerprint == w.fingerprint(file.version, h)
    && file.result == Stamp(w, w.collect(file.version, h), file.storedAt)
  }

  /** Between two calls the file may also be lost or damaged. */
  datatype Event = Collect(call: Call) | Damage(to: File)

  ghost predicate Fair(events: seq<Event>) {
    forall i :: 0 <= i < |events| ==>
      match events[i]
      case Collect(call) => call.seen == call.found
      case Damage(to) => !to.Cached?
  }

  function FileAt(w: World, maxAge: nat, file: File, events: seq<Event>): File {
    if events == [] then file
    else
      var before := FileAt(w, maxAge, file, events[..|events| - 1]);
      match events[|events| - 1]
      case Collect(call) => FileAfter(w, maxAge, before, call)
      case Damage(to) => to
  }

  lemma {:induction false} CacheStaysTruthful(w: World, maxAge: nat, file: File, events: seq<Event>)
    requires Truthful(w, file) && Fair(events)
    ensures Truthful(w, FileAt(w, maxAge, file, events))
  {
    if events != [] {
      var init, last := events[..|events| - 1], events[|events| - 1];
      CacheStaysTruthful(w, maxAge, file, init);
      if last.Collect? {
        var before := FileAt(w, maxAge, file, init);
        var after := FileAfter(w, maxAge, before, last.call);
        if after.Cached? && after != before {
          assert Produced(w, after, last.call.found);
        }
      }
    }
  }

  /** The time a result is stamped with: now, or no longer ago than the cache keeps it. */
  predicate Recent(at: nat, now: nat, maxAge: nat) {
    at == now || (at <= now && now - at < maxAge)
  }

  /** Over any history of hits, misses, stores, expiries, failed fingerprints, lost files and agent upgrades, a
      cached collection gives what the collector would find on this host now, stamped no longer ago than the
      cache's age; it is complete exactly when the collector is and a fingerprint was taken. */
  lemma {:induction false} CachedRuntimeIsTransparent(w: World, maxAge: nat, file: File, events: seq<Event>, call: Call)
    requires w.Faithful() && Truthful(w, file) && Fair(events) && call.seen == call.found
    ensures var r := RuntimeResult(w, maxAge, FileAt(w, maxAge, file, events), call);
            var now := w.collect(call.version, call.found);
            && r.entries == now.entries
            && (r.complete <==> now.complete && call.printed)
            && (call.printed ==> exists at :: Recent(at, call.now, maxAge) && r == Stamp(w, now, at))
            && (!call.printed ==> r == Degraded(Stamp(w, now, call.now)))
  {
    CacheStaysTruthful(w, maxAge, file, events);
    HitIsTruthful(w, maxAge, FileAt(w, maxAge, file, events), call);
    assert Recent(call.now, call.now, maxAge);
  }

  /** The platform collector likewise, except that a failed fingerprint costs it nothing. */
  lemma {:induction false} CachedPlatformIsTransparent(
    w: World, maxAge: nat, file: File, events: seq<Event>, call: Call)
    requires w.Faithful() && Truthful(w, file) && Fair(events) && call.seen == call.found
    ensures var r := PlatformResult(w, maxAge, FileAt(w, maxAge, file, events), call);
            var now := w.collect(call.version, call.found);
            exists at :: Recent(at, call.now, maxAge) && r == Stamp(w, now, at)
  {
    CacheStaysTruthful(w, maxAge, file, events);
    HitIsTruthful(w, maxAge, FileAt(w, maxAge, file, events), call);
    assert Recent(call.now, call.now, maxAge);
  }

  lemma HitIsTruthful(w: World, maxAge: nat, file: File, call: Call)
    requires w.Faithful() && Truthful(w, file) && call.seen == call.found
    ensures Looked(w, maxAge, file, call).Some? ==>
              && Recent(file.storedAt, call.now, maxAge) && w.collect(call.version, call.found).complete
              && Looked(w, maxAge, file, call).value == Stamp(w, w.collect(call.version, call.found), file.storedAt)
  {
    if Looked(w, maxAge, file, call).Some? {
      var h: Host :| Produced(w, file, h);
      assert w.fingerprint(call.version, h) == w.fingerprint(call.version, call.seen);
    }
  }

  /** Stillness matters: a host that changes between fingerprint and collection leaves the new state's findings
      under the old fingerprint, and the next call on the old state returns them. */
  lemma ChangeDuringCollection(w: World, maxAge: nat, before: Host, after: Host, version: string, now: nat)
    requires maxAge > 0 && w.collect(version, after).complete
    ensures var race := Call(before, after, version, now, true, true, Done);
            var later := Call(before, before, version, now, true, true, Done);
            RuntimeResult(w, maxAge, FileAfter(w, maxAge, Missing, race), later).entries
            == w.collect(version, after).entries
  {}

  /** The call leaves its own result in the file. */
  predicate Writes(w: World, maxAge: nat, file: File, call: Call) {
    && call.cached && call.printed && Looked(w, maxAge, file, call).None?
    && w.collect(call.version, call.found).complete && !call.io.Failed?
  }

  function Written(w: World, call: Call): File {
    Cached(CACHE_FORMAT_VERSION, call.version, w.fingerprint(call.version, call.seen), call.now, Collected(w, call))
  }

  /** The i-th event is the last one that wrote the file, and nothing damaged the file since. */
  ghost predicate LastWrite(w: World, maxAge: nat, start: File, events: seq<Event>, i: nat) {
    && i < |events| && events[i].Collect? && Writes(w, maxAge, FileAt(w, maxAge, start, events[..i]), events[i].call)
    && forall j :: i < j < |events| ==>
         events[j].Collect? && !Writes(w, maxAge, FileAt(w, maxAge, start, events[..j]), events[j].call)
  }

  lemma LastWriteBefore(w: World, maxAge: nat, start: File, events: seq<Event>, i: nat)
    requires i < |events| - 1
    ensures var n := |events| - 1;
            LastWrite(w, maxAge, start, events, i)
            <==> LastWrite(w, maxAge, start, events[..n], i)
                 && events[n].Collect? && !Writes(w, maxAge, FileAt(w, maxAge, start, events[..n]), events[n].call)
  {
    var n := |events| - 1;
    assert forall j :: 0 <= j < n ==> events[..n][..j] == events[..j] && events[..n][j] == events[j];
  }

  /** What is on disk is what the last write left. */
  lemma {:induction false} FileIsLastWrite(w: World, maxAge: nat, start: File, events: seq<Event>, i: nat)
    requires LastWrite(w, maxAge, start, events, i)
    ensures FileAt(w, maxAge, start, events) == Written(w, events[i].call)
  {
    var n := |events| - 1;
    if i < n {
      LastWriteBefore(w, maxAge, start, events, i);
      FileIsLastWrite(w, maxAge, start, events[..n], i);
    }
  }

  lemma {:induction false} CachedMeansWritten(w: World, maxAge: nat, start: File, events: seq<Event>) returns (i: nat)
    requires !start.Cached? && FileAt(w, maxAge, start, events).Cached?
    requires forall j :: 0 <= j < |events| && events[j].Damage? ==> !events[j].to.Cached?
    ensures LastWrite(w, maxAge, start, events, i)
  {
    var n := |events| - 1;
    var before := FileAt(w, maxAge, start, events[..n]);
    if Writes(w, maxAge, before, events[n].call) {
      i := n;
    } else {
      i := CachedMeansWritten(w, maxAge, start, events[..n]);
      LastWriteBefore(w, maxAge, start, events, i);
    }
  }

  /** The later call takes what the earlier one wrote. */
  predicate Takes(w: World, maxAge: nat, earlier: Call, call: Call) {
    && call.cached && call.printed && earlier.version == call.version
    && w.fingerprint(earlier.version, earlier.seen) == w.fingerprint(call.version, call.seen)
    && !Expired(earlier.now, call.now, maxAge)
  }

  /** The host's change during the call made a difference to what was collected. */
  predicate MovedVisibly(w: World, call: Call) {
    w.collect(call.version, call.found).entries != w.collect(call.version, call.seen).entries
  }

  /** Over any history of a moving host, a call on a host that stands still returns entries other than the
      host's own if and only if it takes what the last write left, and the host had visibly moved during the
      call that wrote it. */
  lemma {:induction false} SpoiledExactly(w: World, maxAge: nat, start: File, events: seq<Event>, call: Call)
    requires w.Faithful() && !start.Cached? && call.seen == call.found
    requires forall j :: 0 <= j < |events| && events[j].Damage? ==> !events[j].to.Cached?
    ensures var file := FileAt(w, maxAge, start, events);
            RuntimeResult(w, maxAge, file, call).entries != w.collect(call.version, call.found).entries
            <==> exists i: nat :: LastWrite(w, maxAge, start, events, i)
                             && Takes(w, maxAge, events[i].call, call) && MovedVisibly(w, events[i].call)
  {
    var file := FileAt(w, maxAge, start, events);
    forall i: nat | LastWrite(w, maxAge, start, events, i) ensures file == Written(w, events[i].call) {
      FileIsLastWrite(w, maxAge, start, events, i);
    }
    if file.Cached? {
      var i := CachedMeansWritten(w, maxAge, start, events);
      TakenEntries(w, maxAge, events[i].call, call);
    }
  }

  lemma TakenEntries(w: World, maxAge: nat, earlier: Call, call: Call)
    requires w.Faithful() && call.seen == call.found && w.collect(earlier.version, earlier.found).complete
    ensures RuntimeResult(w, maxAge, Written(w, earlier), call).entries != w.collect(call.version, call.found).entries
            <==> Takes(w, maxAge, earlier, call) && MovedVisibly(w, earlier)
  {
    if Takes(w, maxAge, earlier, call) {
      assert w.collect(call.version, earlier.seen) == w.collect(call.version, call.seen);
    }
  }

  // ---------------------------------------------------------------- when a source was last complete

  /** When a source was last reported complete. */
  function LastComplete(log: seq<SourceReport>, source: Source): Option<string> {
    if log == [] then None
    else
      var r := log[|log| - 1];
      if r.source == source && r.status.Complete? && r.lastCompleteAt.Some? then r.lastCompleteAt
      else LastComplete(log[..|log| - 1], source)
  }

  function Get(history: map<Source, string>, source: Source): Option<string> {
    if source in history then Some(history[source]) else None
  }

  ghost predicate Remembers(history: map<Source, string>, log: seq<SourceReport>) {
    forall source: Source :: Get(history, source) == LastComplete(log, source)
  }

  function Reconciled(log: seq<SourceReport>, r: SourceReport): SourceReport {
    if r.status.Complete? then r else r.(lastCompleteAt := LastComplete(log, r.source))
  }

  class SourceHistory {
    /** Absent when missing or unreadable. */
    var file: Option<map<Source, string>>

    /** Fills in when each incomplete source was last complete, updating the history on the way. `log` is every
        report given to this method so far. */
    method ReconcileLastComplete(sources: seq<SourceReport>, io: Io, ghost log: seq<SourceReport>)
      returns (reconciled: seq<SourceReport>)
      requires Remembers(if file.Some? then file.value else map[], log)
      modifies this`file
      ensures |reconciled| == |sources|
      ensures forall i :: 0 <= i < |sources| ==> reconciled[i] == Reconciled(log + sources[..i], sources[i])
      ensures if io.Failed? then file == old(file) else file.Some? && Remembers(file.value, log + sources)
    {
      var history := if file.Some? then file.value else map[];
      reconciled := sources;
      assert log + sources[..0] == log;
      for i := 0 to |sources|
        invariant |reconciled| == |sources| && file == old(file)
        invariant Remembers(history, log + sources[..i])
        invariant forall k :: 0 <= k < i ==> reconciled[k] == Reconciled(log + sources[..k], sources[k])
        invariant forall k :: i <= k < |sources| ==> reconciled[k] == sources[k]
      {
        var r := sources[i];
        RemembersNext(history, log + sources[..i], r);
        assert log + sources[..i + 1] == (log + sources[..i]) + [r];
        if r.status.Complete? {
          if r.lastCompleteAt.Some? {
            history := history[r.source := r.lastCompleteAt.value];
          }
        } else {
          reconciled := reconciled[i := r.(lastCompleteAt := Get(history, r.source))];
        }
      }
      assert log + sources[..|sources|] == log + sources;
      if !io.Failed? {
        file := Some(history);
      }
    }
  }

  lemma RemembersNext(history: map<Source, string>, log: seq<SourceReport>, r: SourceReport)
    requires Remembers(history, log)
    ensures var next := if r.status.Complete? && r.lastCompleteAt.Some? then history[r.source := r.lastCompleteAt.value]
                        else history;
            Remembers(next, log + [r])
  {
    assert (log + [r])[..|log + [r]| - 1] == log;
  }

  /** The last complete time is that of some complete report, after which the source was never complete again. */
  lemma {:induction false} LastCompleteIsLatest(log: seq<SourceReport>, source: Source)
    ensures match LastComplete(log, source)
            case Some(at) =>
              exists i :: 0 <= i < |log| && CompletedAt(log[i], source, at)
                          && forall j :: i < j < |log| ==> !Completes(log[j], source)
            case None => forall j :: 0 <= j < |log| ==> !Completes(log[j], source)
  {
    if log != [] {
      LastCompleteIsLatest(log[..|log| - 1], source);
      var n := |log| - 1;
      if Completes(log[n], source) {
        assert CompletedAt(log[n], source, log[n].lastCompleteAt.value);
      } else if LastComplete(log, source).Some? {
        var at := LastComplete(log, source).value;
        var i :| 0 <= i < n && CompletedAt(log[..n][i], source, at)
                 && forall j :: i < j < n ==> !Completes(log[..n][j], source);
        assert CompletedAt(log[i], source, at);
        forall j | i < j < |log| ensures !Completes(log[j], source) {
          assert j < n ==> log[..n][j] == log[j];
        }
      } else {
        forall j | 0 <= j < |log| ensures !Completes(log[j], source) {
          assert j < n ==> log[..n][j] == log[j];
        }
      }
    }
  }

  predicate Completes(r: SourceReport, source: Source) {
    r.source == source && r.status.Complete? && r.lastCompleteAt.Some?
  }

  predicate CompletedAt(r: SourceReport, source: Source, at: string) {
    Completes(r, source) && r.lastCompleteAt == Some(at)
  }
}
