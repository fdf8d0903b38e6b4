/** Settings sent by the server: validation, the memories that deduplicate them, and what that amounts to. */
module Managed {
  import opened Options
  import opened VersionOrder

  const MIN_MANAGED_INTERVAL_SECS := 10
  const MAX_MANAGED_INTERVAL_SECS := 86_400
  const MANAGED_LOG_LEVELS := ["error", "warn", "info", "debug", "trace"]

  datatype Runtime = Runtime(heartbeat: nat, inventory: nat, level: string)

  datatype Settings = Settings(heartbeat: Option<nat>, inventory: Option<nat>, level: Option<string>)

  datatype Directive = Directive(settings: Option<Settings>, revision: Option<nat>)

  datatype Rejection = Rejection(revision: Option<nat>, settings: Settings)

  datatype State = State(runtime: Runtime, applied: Option<nat>, unversioned: Option<Settings>,
                         rejected: Option<Rejection>, warnings: nat)

  // ---------------------------------------------------------------- validation

  predicate InRange(seconds: nat) {
    MIN_MANAGED_INTERVAL_SECS <= seconds <= MAX_MANAGED_INTERVAL_SECS
  }

  function NormalLevel(u: Unicode, level: string): string { AsciiLower(Trim(u, level)) }

  predicate ValidSettings(u: Unicode, s: Settings) {
    && (s.heartbeat.Some? ==> InRange(s.heartbeat.value))
    && (s.inventory.Some? ==> InRange(s.inventory.value))
    && (s.level.Some? ==> NormalLevel(u, s.level.value) in MANAGED_LOG_LEVELS)
  }

  /** The runtime with every given setting taking effect. */
  function Overlay(u: Unicode, r: Runtime, s: Settings): Runtime {
    Runtime(if s.heartbeat.Some? then s.heartbeat.value else r.heartbeat,
            if s.inventory.Some? then s.inventory.value else r.inventory,
            if s.level.Some? then NormalLevel(u, s.level.value) else r.level)
  }

  // ---------------------------------------------------------------- one directive

  predicate SameRevision(applied: Option<nat>, revision: Option<nat>) {
    revision.Some? && applied == revision
  }

  /** The directive is taken for one acted upon before. */
  predicate Repeated(s: State, d: Directive) {
    d.settings.Some? &&
    (SameRevision(s.applied, d.revision) || (d.revision.None? && s.unversioned == d.settings))
  }

  function Or(a: Option<nat>, b: Option<nat>): Option<nat> { if a.Some? then a else b }

  function Apply(u: Unicode, s: State, d: Directive): State {
    if d.settings.None? then s.(applied := Or(d.revision, s.applied))
    else if SameRevision(s.applied, d.revision) then s
    else if !ValidSettings(u, d.settings.value) then
      var rejection := Rejection(d.revision, d.settings.value);
      if s.rejected == Some(rejection) then s else s.(rejected := Some(rejection), warnings := s.warnings + 1)
    else if d.revision.None? && s.unversioned == d.settings then s.(rejected := None)
    else
      s.(runtime := Overlay(u, s.runtime, d.settings.value), rejected := None,
         unversioned := if d.revision.None? then d.settings else s.unversioned,
         applied := Or(d.revision, s.applied))
  }

  /** A process that has acted on nothing yet. */
  function Fresh(r: Runtime): State { State(r, None, None, None, 0) }

  function ApplyAll(u: Unicode, s: State, ds: seq<Directive>): State {
    if ds == [] then s else Apply(u, ApplyAll(u, s, ds[..|ds| - 1]), ds[|ds| - 1])
  }

  /** What every directive in turn asks for, with no memory at all. */
  function Naive(u: Unicode, r: Runtime, d: Directive): Runtime {
    if d.settings.Some? && ValidSettings(u, d.settings.value) then Overlay(u, r, d.settings.value) else r
  }

  function NaiveAll(u: Unicode, r: Runtime, ds: seq<Directive>): Runtime {
    if ds == [] then r else Naive(u, NaiveAll(u, r, ds[..|ds| - 1]), ds[|ds| - 1])
  }

  // ---------------------------------------------------------------- the program

  class ManagedAgent {
    const u: Unicode
    var runtime: Runtime
    var applied: Option<nat>
    var lastUnversioned: Option<Settings>
    var lastRejected: Option<Rejection>
    var warnings: nat
    /** How often the loops were told of a new runtime. */
    var notices: nat

    function Now(): State
      reads this
    {
      State(runtime, applied, lastUnversioned, lastRejected, warnings)
    }

    constructor (u: Unicode, configured: Runtime)
      ensures Now() == Fresh(configured) && this.u == u && notices == 0
    {
      this.u, runtime := u, configured;
      applied, lastUnversioned, lastRejected, warnings, notices := None, None, None, 0, 0;
    }

    method ValidateInterval(seconds: Option<nat>) returns (ok: bool)
      ensures ok <==> (seconds.Some? ==> InRange(seconds.value))
    {
      if seconds.None? {
        return true;
      }
      return MIN_MANAGED_INTERVAL_SECS <= seconds.value <= MAX_MANAGED_INTERVAL_SECS;
    }

    method ValidateLogLevel(level: string) returns (normalized: Option<string>)
      ensures normalized.Some? <==> NormalLevel(u, level) in MANAGED_LOG_LEVELS
      ensures normalized.Some? ==> normalized.value == NormalLevel(u, level)
    {
      var lowered := AsciiLower(Trim(u, level));
      for i := 0 to |MANAGED_LOG_LEVELS|
        invariant lowered !in MANAGED_LOG_LEVELS[..i]
      {
        if MANAGED_LOG_LEVELS[i] == lowered {
          return Some(lowered);
        }
      }
      return None;
    }

    method RememberRejected(revision: Option<nat>, settings: Settings) returns (news: bool)
      modifies this`lastRejected
      ensures lastRejected == Some(Rejection(revision, settings)) && news == (old(lastRejected) != lastRejected)
    {
      var rejection := Rejection(revision, settings);
      if lastRejected == Some(rejection) {
        return false;
      }
      lastRejected := Some(rejection);
      return true;
    }

    method ApplySettings(d: Directive)
      modifies this
      ensures Now() == Apply(u, old(Now()), d)
      ensures notices == old(notices) + (if runtime.heartbeat != old(runtime.heartbeat)
                                           || runtime.inventory != old(runtime.inventory) then 1 else 0)
    {
      if d.settings.None? {
        applied := if d.revision.Some? then d.revision else applied;
        return;
      }
      var settings := d.settings.value;
      if d.revision.Some? && applied == d.revision {
        return;
      }
      var heartbeat := ValidateInterval(settings.heartbeat);
      var inventory := ValidateInterval(settings.inventory);
      var level := None;
      if settings.level.Some? {
        level := ValidateLogLevel(settings.level.value);
      }
      if !heartbeat || !inventory || (settings.level.Some? && level.None?) {
        var news := RememberRejected(d.revision, settings);
        warnings := if news then warnings + 1 else warnings;
        return;
      }
      lastRejected := None;
      if d.revision.None? {
        if lastUnversioned == Some(settings) {
          return;
        }
        lastUnversioned := Some(settings);
      }
      var next := runtime;
      if settings.heartbeat.Some? {
        next := next.(heartbeat := settings.heartbeat.value);
      }
      if settings.inventory.Some? {
        next := next.(inventory := settings.inventory.value);
      }
      if level.Some? {
        next := next.(level := level.value);
      }
      if next.heartbeat != runtime.heartbeat || next.inventory != runtime.inventory {
        notices := notices + 1;
      }
      runtime := next;
      applied := if d.revision.Some? then d.revision else applied;
    }

    /** One directive a heartbeat. */
    method Heartbeats(ds: seq<Directive>)
      modifies this
      ensures Now() == ApplyAll(u, old(Now()), ds)
    {
      for i := 0 to |ds|
        invariant Now() == ApplyAll(u, old(Now()), ds[..i])
      {
        assert ds[..i + 1][..i] == ds[..i];
        ApplySettings(ds[i]);
      }
      assert ds[..|ds|] == ds;
    }
  }

  // ---------------------------------------------------------------- bounds and acknowledgement

  predicate Bounded(r: Runtime) { InRange(r.heartbeat) && InRange(r.inventory) }

  /** The revision reported to the server belongs to a directive that was valid or carried no settings. */
  ghost predicate Honest(u: Unicode, s: State, ds: seq<Directive>) {
    s.applied.Some? ==>
      exists d :: d in ds && d.revision == s.applied && (d.settings.Some? ==> ValidSettings(u, d.settings.value))
  }

  /** What makes settings valid. */
  lemma ValidSettingsSay(u: Unicode, s: Settings, folded: string)
    requires s.level.Some? ==> Folds(Trim(u, s.level.value), folded)
    ensures ValidSettings(u, s)
            <==> && (s.heartbeat.Some? ==> 10 <= s.heartbeat.value <= 86_400)
                 && (s.inventory.Some? ==> 10 <= s.inventory.value <= 86_400)
                 && (s.level.Some? ==>
                       folded == "error" || folded == "warn" || folded == "info" || folded == "debug"
                       || folded == "trace")
  {
    assert s.level.Some? ==> NormalLevel(u, s.level.value) == folded;
  }

  /** Along every sequence of directives the intervals stay within bounds and an invalid directive is never
      acknowledged. */
  lemma {:induction false} SettingsSafe(u: Unicode, r: Runtime, ds: seq<Directive>)
    requires Bounded(r)
    ensures var t := ApplyAll(u, Fresh(r), ds).runtime;
            Bounded(t) && 10 <= t.heartbeat <= 86_400 && 10 <= t.inventory <= 86_400
    ensures Honest(u, ApplyAll(u, Fresh(r), ds), ds)
  {
    if ds != [] {
      var init, d := ds[..|ds| - 1], ds[|ds| - 1];
      SettingsSafe(u, r, init);
      assert d in ds && forall x :: x in init ==> x in ds;
    }
  }

  /** An invalid directive changes nothing but what is remembered of rejections, and a repeated one is
      reported once. */
  lemma InvalidChangesNothing(u: Unicode, s: State, d: Directive)
    requires d.settings.Some? && !ValidSettings(u, d.settings.value)
    ensures var t := Apply(u, s, d);
            && t.runtime == s.runtime && t.applied == s.applied && t.unversioned == s.unversioned
            && Apply(u, t, d) == t && t.warnings <= s.warnings + 1
  {}

  // ---------------------------------------------------------------- deduplication is invisible

  /** One directive has its plain effect unless it is taken for a repeat although its settings are no longer
      in force. */
  lemma PlainUnlessRepeated(u: Unicode, s: State, d: Directive)
    ensures Apply(u, s, d).runtime == Naive(u, s.runtime, d)
            <==> !(Repeated(s, d) && ValidSettings(u, d.settings.value)
                   && Overlay(u, s.runtime, d.settings.value) != s.runtime)
  {}

  /** One revision, one decision. */
  ghost predicate RevisionsDecide(ds: seq<Directive>) {
    forall d, e :: d in ds && e in ds && d.revision.Some? && d.revision == e.revision ==> d.settings == e.settings
  }

  ghost predicate AllVersioned(ds: seq<Directive>) {
    forall d :: d in ds ==> d.revision.Some?
  }

  ghost predicate AllUnversioned(ds: seq<Directive>) {
    forall d :: d in ds ==> d.revision.None?
  }

  /** Settings of the applied revision are in force. */
  ghost predicate InForce(u: Unicode, s: State, ds: seq<Directive>) {
    s.applied.Some? ==> exists d :: d in ds && d.revision == s.applied && Naive(u, s.runtime, d) == s.runtime
  }

  /** When every directive carries a revision and a revision determines its settings, deduplication cannot be
      told from applying every valid directive in order. */
  lemma {:induction false} VersionedIsPlain(u: Unicode, r: Runtime, ds: seq<Directive>)
    requires AllVersioned(ds) && RevisionsDecide(ds)
    ensures ApplyAll(u, Fresh(r), ds).runtime == NaiveAll(u, r, ds)
    ensures InForce(u, ApplyAll(u, Fresh(r), ds), ds)
  {
    if ds != [] {
      var init, d := ds[..|ds| - 1], ds[|ds| - 1];
      VersionedIsPlain(u, r, init);
      assert d in ds && forall x :: x in init ==> x in ds;
      var s := ApplyAll(u, Fresh(r), init);
      if SameRevision(s.applied, d.revision) {
        var e :| e in init && e.revision == s.applied && Naive(u, s.runtime, e) == s.runtime;
        assert e.settings == d.settings;
      }
    }
  }

  /** Likewise when no directive carries one. */
  lemma {:induction false} UnversionedIsPlain(u: Unicode, r: Runtime, ds: seq<Directive>)
    requires AllUnversioned(ds)
    ensures var s := ApplyAll(u, Fresh(r), ds);
            && s.runtime == NaiveAll(u, r, ds) && s.applied.None?
            && (s.unversioned.Some? ==> Overlay(u, s.runtime, s.unversioned.value) == s.runtime)
  {
    if ds != [] {
      var init, d := ds[..|ds| - 1], ds[|ds| - 1];
      assert d in ds && forall x :: x in init ==> x in ds;
      UnversionedIsPlain(u, r, init);
    }
  }

  /** The settings of `d` are valid. */
  predicate Effective(u: Unicode, d: Directive) {
    d.settings.Some? && ValidSettings(u, d.settings.value)
  }

  /** The revision of the last directive that announced one and was not refused. */
  function LastAcknowledged(u: Unicode, ds: seq<Directive>): Option<nat> {
    if ds == [] then None
    else
      var d := ds[|ds| - 1];
      if d.revision.Some? && (d.settings.None? || Effective(u, d)) then d.revision
      else LastAcknowledged(u, ds[..|ds| - 1])
  }

  /** The settings of the last valid directive without a revision. */
  function LastUnversioned(u: Unicode, ds: seq<Directive>): Option<Settings> {
    if ds == [] then None
    else
      var d := ds[|ds| - 1];
      if d.revision.None? && Effective(u, d) then d.settings else LastUnversioned(u, ds[..|ds| - 1])
  }

  /** The two memories hold what a look back at the sequence gives. */
  lemma {:induction false} MemoryLooksBack(u: Unicode, r: Runtime, ds: seq<Directive>)
    ensures ApplyAll(u, Fresh(r), ds).applied == LastAcknowledged(u, ds)
    ensures ApplyAll(u, Fresh(r), ds).unversioned == LastUnversioned(u, ds)
  {
    if ds != [] {
      MemoryLooksBack(u, r, ds[..|ds| - 1]);
    }
  }

  /** A valid directive that the last acknowledgement, or the last unversioned settings, already cover. */
  predicate Covered(u: Unicode, ds: seq<Directive>, d: Directive) {
    Effective(u, d) &&
    if d.revision.Some? then LastAcknowledged(u, ds) == d.revision else LastUnversioned(u, ds) == d.settings
  }

  ghost predicate PlainThroughout(u: Unicode, r: Runtime, ds: seq<Directive>) {
    forall j :: 0 <= j <= |ds| ==> ApplyAll(u, Fresh(r), ds[..j]).runtime == NaiveAll(u, r, ds[..j])
  }

  /** At every directive the memories cover, its settings are in force. */
  ghost predicate CoveredInForce(u: Unicode, r: Runtime, ds: seq<Directive>) {
    forall j :: 0 <= j < |ds| && Covered(u, ds[..j], ds[j]) ==>
      Overlay(u, NaiveAll(u, r, ds[..j]), ds[j].settings.value) == NaiveAll(u, r, ds[..j])
  }

  lemma {:induction false} PlainGrows(u: Unicode, r: Runtime, ds: seq<Directive>)
    requires ds != []
    ensures PlainThroughout(u, r, ds)
            <==> PlainThroughout(u, r, ds[..|ds| - 1]) && ApplyAll(u, Fresh(r), ds).runtime == NaiveAll(u, r, ds)
  {
    var n := |ds| - 1;
    assert forall j :: 0 <= j <= n ==> ds[..n][..j] == ds[..j];
    assert ds[..n + 1] == ds;
  }

  lemma CoveredGrows(u: Unicode, r: Runtime, ds: seq<Directive>)
    requires ds != []
    ensures var init, d := ds[..|ds| - 1], ds[|ds| - 1];
            CoveredInForce(u, r, ds)
            <==> CoveredInForce(u, r, init)
                 && (Covered(u, init, d) ==> Overlay(u, NaiveAll(u, r, init), d.settings.value) == NaiveAll(u, r, init))
  {
    var n := |ds| - 1;
    assert forall j :: 0 <= j < n ==> ds[..n][..j] == ds[..j] && ds[..n][j] == ds[j];
  }

  /** Deduplication cannot be told from applying every valid directive in turn, at any point of any sequence,
      exactly when every directive the memories cover finds its settings in force. */
  lemma {:induction false} PlainExactly(u: Unicode, r: Runtime, ds: seq<Directive>)
    ensures PlainThroughout(u, r, ds) <==> CoveredInForce(u, r, ds)
  {
    if ds != [] {
      var init, d := ds[..|ds| - 1], ds[|ds| - 1];
      PlainExactly(u, r, init);
      MemoryLooksBack(u, r, init);
      PlainUnlessRepeated(u, ApplyAll(u, Fresh(r), init), d);
      PlainGrows(u, r, ds);
      CoveredGrows(u, r, ds);
      if PlainThroughout(u, r, init) {
        PlainSoFar(u, r, init);
      }
    }
  }

  lemma PlainSoFar(u: Unicode, r: Runtime, ds: seq<Directive>)
    requires PlainThroughout(u, r, ds)
    ensures ApplyAll(u, Fresh(r), ds).runtime == NaiveAll(u, r, ds)
  {
    assert ds[..|ds|] == ds;
  }

  /** The two give a different value to one setting. */
  predicate Conflict(u: Unicode, a: Settings, b: Settings) {
    || (a.heartbeat.Some? && b.heartbeat.Some? && a.heartbeat != b.heartbeat)
    || (a.inventory.Some? && b.inventory.Some? && a.inventory != b.inventory)
    || (a.level.Some? && b.level.Some? && NormalLevel(u, a.level.value) != NormalLevel(u, b.level.value))
  }

  /** Between two equal directives no valid one of the other kind sets one of their settings differently. */
  ghost predicate NothingBetween(u: Unicode, ds: seq<Directive>) {
    forall i, k, j :: 0 <= i < k < j < |ds| && ds[i] == ds[j] && Effective(u, ds[j]) && Effective(u, ds[k])
                      && ds[k].revision.Some? != ds[j].revision.Some? ==>
                        !Conflict(u, ds[k].settings.value, ds[j].settings.value)
  }

  /** Where the directive that covers `d` stands. */
  lemma {:induction false} CoveredBy(u: Unicode, ds: seq<Directive>, d: Directive) returns (i: nat)
    requires Covered(u, ds, d)
    requires forall e :: e in ds && d.revision.Some? && e.revision == d.revision ==> e.settings == d.settings
    ensures i < |ds| && ds[i] == d
    ensures forall k :: i < k < |ds| && Effective(u, ds[k]) ==> ds[k].revision.Some? != d.revision.Some?
  {
    var e := ds[|ds| - 1];
    if e.revision.Some? == d.revision.Some? && (e.settings.None? ==> e.revision.Some?)
       && (e.settings.Some? ==> Effective(u, e)) {
      i := |ds| - 1;
    } else {
      i := CoveredBy(u, ds[..|ds| - 1], d);
    }
  }

  /** Settings stay in force while nothing conflicts with them. */
  lemma {:induction false} StaysInForce(u: Unicode, r: Runtime, ds: seq<Directive>, i: nat)
    requires i < |ds| && Effective(u, ds[i])
    requires forall k :: i < k < |ds| && Effective(u, ds[k]) ==>
               !Conflict(u, ds[k].settings.value, ds[i].settings.value)
    ensures Overlay(u, NaiveAll(u, r, ds), ds[i].settings.value) == NaiveAll(u, r, ds)
  {
    if i < |ds| - 1 {
      StaysInForce(u, r, ds[..|ds| - 1], i);
    }
  }

  /** Mixed sequences included: when a revision determines its settings and nothing of the other kind comes
      between two equal directives, the agent ends up where applying every valid directive in turn would. */
  lemma MixedIsPlain(u: Unicode, r: Runtime, ds: seq<Directive>)
    requires RevisionsDecide(ds) && NothingBetween(u, ds)
    ensures PlainThroughout(u, r, ds)
  {
    forall j | 0 <= j < |ds| && Covered(u, ds[..j], ds[j])
      ensures Overlay(u, NaiveAll(u, r, ds[..j]), ds[j].settings.value) == NaiveAll(u, r, ds[..j])
    {
      assert ds[j] in ds && forall e :: e in ds[..j] ==> e in ds;
      var i := CoveredBy(u, ds[..j], ds[j]);
      assert ds[..j][i] == ds[i];
      forall k | i < k < j && Effective(u, ds[..j][k])
        ensures !Conflict(u, ds[..j][k].settings.value, ds[..j][i].settings.value)
      {
        assert ds[..j][k] == ds[k];
      }
      StaysInForce(u, r, ds[..j], i);
    }
    PlainExactly(u, r, ds);
  }

  // ---------------------------------------------------------------- each setting

  /** The directives that are acted upon, in order: valid, and not covered by a memory. */
  function ActedOn(u: Unicode, ds: seq<Directive>): (acted: seq<Directive>)
    ensures forall d :: d in acted ==> Effective(u, d)
  {
    if ds == [] then []
    else
      var init, d := ds[..|ds| - 1], ds[|ds| - 1];
      ActedOn(u, init) + (if Effective(u, d) && !Covered(u, init, d) then [d] else [])
  }

  /** `value` is the last one given, or `base` if none is. */
  ghost predicate LastGiven<T(!new)>(given: seq<Option<T>>, base: T, value: T) {
    && ((forall j :: 0 <= j < |given| ==> given[j].None?) ==> value == base)
    && (forall i :: 0 <= i < |given| && given[i].Some? && (forall j :: i < j < |given| ==> given[j].None?) ==>
          value == given[i].value)
  }

  lemma GivenNext<T(!new)>(given: seq<Option<T>>, o: Option<T>, base: T, value: T)
    requires LastGiven(given, base, value)
    ensures LastGiven(given + [o], base, if o.Some? then o.value else value)
  {
    var all, n := given + [o], |given|;
    assert all[n] == o;
    assert forall j :: 0 <= j < n ==> all[j] == given[j];
    forall i | 0 <= i < |all| && all[i].Some? && (forall j :: i < j < |all| ==> all[j].None?)
      ensures (if o.Some? then o.value else value) == all[i].value
    {
      if i < n {
        forall j | i < j < n ensures given[j].None? { assert all[j].None?; }
      }
    }
    if forall j :: 0 <= j < |all| ==> all[j].None? {
      forall j | 0 <= j < n ensures given[j].None? { assert all[j].None?; }
    }
  }

  function HeartbeatsIn(ds: seq<Directive>): seq<Option<nat>>
    requires forall d :: d in ds ==> d.settings.Some?
  {
    seq(|ds|, i requires 0 <= i < |ds| => ds[i].settings.value.heartbeat)
  }

  function InventoriesIn(ds: seq<Directive>): seq<Option<nat>>
    requires forall d :: d in ds ==> d.settings.Some?
  {
    seq(|ds|, i requires 0 <= i < |ds| => ds[i].settings.value.inventory)
  }

  function LevelsIn(u: Unicode, ds: seq<Directive>): seq<Option<string>>
    requires forall d :: d in ds ==> d.settings.Some?
  {
    seq(|ds|, i requires 0 <= i < |ds| =>
      var level := ds[i].settings.value.level;
      if level.Some? then Some(AsciiLower(Trim(u, level.value))) else None)
  }

  /** The three settings of `t` are the last ones given in `acted`. */
  ghost predicate AllLast(u: Unicode, acted: seq<Directive>, r: Runtime, t: Runtime)
    requires forall d :: d in acted ==> d.settings.Some?
  {
    && LastGiven(HeartbeatsIn(acted), r.heartbeat, t.heartbeat)
    && LastGiven(InventoriesIn(acted), r.inventory, t.inventory)
    && LastGiven(LevelsIn(u, acted), r.level, t.level)
  }

  lemma AllLastNext(u: Unicode, acted: seq<Directive>, r: Runtime, t: Runtime, d: Directive)
    requires d.settings.Some? && (forall e :: e in acted ==> e.settings.Some?) && AllLast(u, acted, r, t)
    ensures AllLast(u, acted + [d], r, Overlay(u, t, d.settings.value))
  {
    var given := d.settings.value;
    SettingsNext(u, acted, d);
    GivenNext(HeartbeatsIn(acted), given.heartbeat, r.heartbeat, t.heartbeat);
    GivenNext(InventoriesIn(acted), given.inventory, r.inventory, t.inventory);
    GivenNext(LevelsIn(u, acted), LevelsIn(u, [d])[0], r.level, t.level);
  }

  lemma ActsOrNot(u: Unicode, r: Runtime, ds: seq<Directive>)
    requires ds != []
    ensures var init, d := ds[..|ds| - 1], ds[|ds| - 1];
            var before, after := ApplyAll(u, Fresh(r), init).runtime, ApplyAll(u, Fresh(r), ds).runtime;
            if Effective(u, d) && !Covered(u, init, d)
            then ActedOn(u, ds) == ActedOn(u, init) + [d] && after == Overlay(u, before, d.settings.value)
            else ActedOn(u, ds) == ActedOn(u, init) && after == before
  {
    MemoryLooksBack(u, r, ds[..|ds| - 1]);
  }

  /** Over every sequence each of the three settings is the last one given by a directive acted upon, or the
      configured one if none gave it; the others do not matter to it. */
  lemma {:induction false} EachSettingIsLast(u: Unicode, r: Runtime, ds: seq<Directive>)
    ensures AllLast(u, ActedOn(u, ds), r, ApplyAll(u, Fresh(r), ds).runtime)
  {
    if ds != [] {
      var init, d := ds[..|ds| - 1], ds[|ds| - 1];
      EachSettingIsLast(u, r, init);
      ActsOrNot(u, r, ds);
      if Effective(u, d) && !Covered(u, init, d) {
        AllLastNext(u, ActedOn(u, init), r, ApplyAll(u, Fresh(r), init).runtime, d);
      }
    }
  }

  lemma SettingsNext(u: Unicode, ds: seq<Directive>, d: Directive)
    requires d.settings.Some? && forall e :: e in ds ==> e.settings.Some?
    ensures HeartbeatsIn(ds + [d]) == HeartbeatsIn(ds) + [d.settings.value.heartbeat]
    ensures InventoriesIn(ds + [d]) == InventoriesIn(ds) + [d.settings.value.inventory]
    ensures LevelsIn(u, ds + [d]) == LevelsIn(u, ds) + [LevelsIn(u, [d])[0]]
  {}

  /** Mixed sequences differ: an unversioned decision repeated after a versioned one is dropped. */
  lemma MixedDiffers(u: Unicode, r: Runtime)
    ensures var every := n => Settings(Some(n), None, None);
            var ds := [Directive(Some(every(60)), None), Directive(Some(every(120)), Some(1)),
                       Directive(Some(every(60)), None)];
            ApplyAll(u, Fresh(r), ds).runtime.heartbeat == 120 && NaiveAll(u, r, ds).heartbeat == 60
  {
    var a := Directive(Some(Settings(Some(60), None, None)), None);
    var b := Directive(Some(Settings(Some(120), None, None)), Some(1));
    var ds := [a, b, a];
    assert ds[..2] == [a, b] && [a, b][..1] == [a] && [a][..0] == [];
    assert ApplyAll(u, Fresh(r), [a]) == Apply(u, Fresh(r), a);
    assert ApplyAll(u, Fresh(r), [a, b]) == Apply(u, ApplyAll(u, Fresh(r), [a]), b);
    assert NaiveAll(u, r, [a]) == Naive(u, r, a);
    assert NaiveAll(u, r, [a, b]) == Naive(u, NaiveAll(u, r, [a]), b);
  }

  /** A revision announced without settings is acknowledged, and its settings are then never applied. */
  lemma BareRevisionHidesSettings(u: Unicode, s: State, revision: nat, settings: Settings)
    ensures var announced := Apply(u, s, Directive(None, Some(revision)));
            && announced.applied == Some(revision)
            && Apply(u, announced, Directive(Some(settings), Some(revision))) == announced
  {}
}
