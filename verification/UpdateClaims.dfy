/** What the update protocol guarantees over every run. */
module UpdateClaims {
  import opened Options
  import Runs
  import opened UpdateProtocol
  import opened UpdateInvariant

  predicate Reaches(c: Config, s0: State, run: seq<Action>, s: State) {
    Init(c, s0) && Exec(c, s0, run) == Some(s)
  }

  lemma ReachableInv(c: Config, s0: State, run: seq<Action>, s: State)
    requires Reaches(c, s0, run, s)
    ensures Inv(c, Base(s0), s)
  {
    InitInv(c, s0);
    RunKeepsInv(c, Base(s0), s0, run);
  }

  // ---------------------------------------------------------------- agreement

  /** In every reachable state the two records agree, so none of the branches that report a disagreement
      can be taken, and whatever is on disk can be read back. */
  lemma RecordsAgree(c: Config, s0: State, run: seq<Action>, s: State)
    requires Reaches(c, s0, run, s)
    ensures BothPending(s.journal, s.ledger) ==> s.journal.pending.value.Id() == s.ledger.pending.value.tx
    ensures s.journal.pending.Some? && s.ledger.pending.None? ==>
              s.finished != [] && s.finished[|s.finished| - 1].tx == s.journal.pending.value.Id()
    ensures s.journal.pending.None? && s.ledger.pending.Some? ==>
              s.ledger.pending.value.tx in s.journal.consumed && NeverInstalled(s, s.ledger.pending.value.tx)
    ensures ReadableReceipts(s.journal.consumed) && |s.ledger.history| <= 100
  {
    ReachableInv(c, s0, run, s);
  }

  // ---------------------------------------------------------------- at most once

  /** Under one emergency policy a forward install of a given nonce, version and sequence runs at most once,
      whatever crashes, restarts and replays occur, and each one ends in exactly one history record. */
  lemma InstalledAtMostOnce(c: Config, s0: State, run: seq<Action>, s: State, i: nat, j: nat)
    requires Reaches(c, s0, run, s)
    requires i < |s.installs| && j < |s.installs| && s.installs[i].tx == s.installs[j].tx
    ensures i == j
    ensures (s.ledger.pending.Some? && s.ledger.pending.value.tx == s.installs[i].tx)
            != (exists k :: 0 <= k < |s.finished| && s.finished[k].tx == s.installs[i].tx)
  {
    ReachableInv(c, s0, run, s);
    assert Accounted(s, s.installs[i].tx);
  }

  /** No run ever finishes one transaction twice. */
  lemma FinishedAtMostOnce(c: Config, s0: State, run: seq<Action>, s: State, i: nat, j: nat)
    requires Reaches(c, s0, run, s)
    requires i < |s.finished| && j < |s.finished| && s.finished[i].tx == s.finished[j].tx
    ensures i == j
  {
    ReachableInv(c, s0, run, s);
  }

  /** Nothing is under way. */
  predicate Quiet(s: State) {
    s.stage.Idle? && s.journal.pending.None? && s.ledger.pending.None?
  }

  ghost predicate Installed(s: State, tx: Tx) { !NeverInstalled(s, tx) }

  /** Every transaction of the newly exempted version that ran or was finished still has its receipt. */
  ghost predicate ReceiptsFor(s: State, policy: Option<Version>) {
    && (forall i :: 0 <= i < |s.installs| && policy == Some(s.installs[i].tx.version) ==>
          s.installs[i].tx in s.journal.consumed)
    && (forall i :: 0 <= i < |s.finished| && policy == Some(s.finished[i].tx.version) ==>
          s.finished[i].tx in s.journal.consumed)
  }

  /** The emergency policy may change in a quiet state without harm to anything proved here if and only if
      every transaction of the exempted version still has its receipt. */
  lemma PolicyMayChange(c: Config, base: Mark, s: State, policy: Option<Version>)
    requires Inv(c, base, s) && Quiet(s)
    ensures Inv(c.(emergency := policy), base, s) <==> ReceiptsFor(s, policy)
  {
    var c' := c.(emergency := policy);
    forall i | 0 <= i < |s.installs|
      ensures Spent(c', s, s.installs[i].tx) <==>
              (policy == Some(s.installs[i].tx.version) ==> s.installs[i].tx in s.journal.consumed)
    {
      assert Spent(c, s, s.installs[i].tx);
    }
    forall i | 0 <= i < |s.finished|
      ensures Spent(c', s, s.finished[i].tx) <==>
              (policy == Some(s.finished[i].tx.version) ==> s.finished[i].tx in s.journal.consumed)
    {
      assert Spent(c, s, s.finished[i].tx);
    }
  }

  /** So at-most-once holds across such a change of policy, over the runs before and after it. */
  lemma InstalledAtMostOnceAcross(c: Config, s0: State, first: seq<Action>, mid: State, policy: Option<Version>,
                                  second: seq<Action>, t: State, i: nat, j: nat)
    requires Reaches(c, s0, first, mid) && Quiet(mid) && ReceiptsFor(mid, policy)
    requires Exec(c.(emergency := policy), mid, second) == Some(t)
    requires i < j < |t.installs|
    ensures t.installs[i].tx != t.installs[j].tx
  {
    ReachableInv(c, s0, first, mid);
    PolicyMayChange(c, Base(s0), mid, policy);
    RunKeepsInv(c.(emergency := policy), Base(s0), mid, second);
  }

  /** Otherwise at-most-once can fail: a transaction that was installed and has lost its receipt runs its
      installer again under a policy that exempts its version. */
  lemma PolicyChangeReopens(c: Config, base: Mark, s: State, tx: Tx, digest: string, now: nat)
    returns (run: seq<Action>, t: State)
    requires Inv(c, base, s) && Quiet(s) && Installed(s, tx) && tx !in s.journal.consumed
    requires |s.journal.consumed| < MAX_REQUESTS
    requires ValidNonce(tx.nonce) && forall r :: r in s.journal.consumed ==> r.nonce != tx.nonce
    requires s.journal.active.Some? && s.journal.active.value.release.version != tx.version
    requires tx.nonce !in s.dirs
    ensures Exec(c.(emergency := Some(tx.version)), s, run) == Some(t)
    ensures exists i, j :: 0 <= i < j < |t.installs| && t.installs[i].tx == tx == t.installs[j].tx
  {
    var c' := c.(emergency := Some(tx.version));
    var release := Release(tx.version, tx.sequence, digest);
    var first, mid := ReserveUnderPolicy(c', s, tx, release, now);
    var second;
    second, t := InstallReserved(c', mid, tx, release, now);
    run := first + second;
    Runs.Concat(Step(c'), s, first, mid, second);
    var k :| 0 <= k < |s.installs| && s.installs[k].tx == tx;
    assert t.installs[k].tx == tx && t.installs[|s.installs|].tx == tx;
  }

  lemma ReserveUnderPolicy(c: Config, s: State, tx: Tx, release: Release, now: nat) returns (run: seq<Action>, t: State)
    requires c.emergency == Some(tx.version) && s.journal.pending.None? && s.ledger.pending.None?
    requires ReadableReceipts(s.journal.consumed) && |s.journal.consumed| < MAX_REQUESTS
    requires ValidNonce(tx.nonce) && forall r :: r in s.journal.consumed ==> r.nonce != tx.nonce
    requires s.journal.active.Some? && s.journal.active.value.release.version != tx.version && tx.nonce !in s.dirs
    ensures Exec(c, s, run) == Some(t)
    ensures t.stage == Committed(tx) && t.installs == s.installs && Holds(t.dirs, Cached(release, tx.nonce))
  {
    var stage, reserve := StageDir(tx.nonce, release), Reserve(tx, s.journal.consumed + [tx]);
    var s1 := Effect(c, s, stage);
    var s2 := Effect(c, s1, reserve);
    t := Effect(c, s2, Commit(tx, now));
    run := [stage, reserve, Commit(tx, now)];
    Runs.Chain(Step(c), [s, s1, s2, t], run);
  }

  lemma InstallReserved(c: Config, s: State, tx: Tx, release: Release, now: nat) returns (run: seq<Action>, t: State)
    requires s.stage == Committed(tx) && Holds(s.dirs, Cached(release, tx.nonce))
    requires release.version == tx.version && release.sequence == tx.sequence
    ensures Exec(c, s, run) == Some(t)
    ensures t.installs == s.installs + [Tried(c, tx, s.ledger)]
  {
    var entry := JournalPending(Cached(release, tx.nonce), tx.nonce, now);
    var s1 := Effect(c, s, DropAck);
    var s2 := Effect(c, s1, Open(entry));
    t := Effect(c, s2, Install(true));
    run := [DropAck, Open(entry), Install(true)];
    Runs.Chain(Step(c), [s, s1, s2, t], run);
  }

  // ---------------------------------------------------------------- floor

  /** The floor is at all times the maximum over its initial value, every seed and every transaction that
      finished healthy. Rolled-back transactions leave no trace in it. */
  lemma FloorIsMaximum(c: Config, s0: State, run: seq<Action>, s: State)
    requires Reaches(c, s0, run, s)
    ensures s.ledger.floorVersion == MaxVersion(s0.ledger.floorVersion, s.raised)
    ensures s.ledger.floorSequence == MaxSequence(s0.ledger.floorSequence, s.raised)
    ensures forall k :: 0 <= k < |s.raised| ==>
              s.raised[k].version <= s.ledger.floorVersion && s.raised[k].sequence <= s.ledger.floorSequence
  {
    ReachableInv(c, s0, run, s);
    MaximumBounds(Base(s0), s.raised);
  }

  lemma {:induction false} MaximumBounds(base: Mark, raised: seq<Mark>)
    ensures base.version <= MaxVersion(base.version, raised) && base.sequence <= MaxSequence(base.sequence, raised)
    ensures forall k :: 0 <= k < |raised| ==>
              raised[k].version <= MaxVersion(base.version, raised)
              && raised[k].sequence <= MaxSequence(base.sequence, raised)
  {
    if raised != [] {
      MaximumBounds(base, raised[..|raised| - 1]);
    }
  }

  /** The floor never decreases, and without an emergency match no installer runs below it. */
  lemma {:induction false} FloorNeverDecreases(c: Config, base: Mark, s: State, run: seq<Action>)
    requires Inv(c, base, s) && Exec(c, s, run).Some?
    ensures var t := Exec(c, s, run).value;
            t.ledger.floorVersion >= s.ledger.floorVersion && t.ledger.floorSequence >= s.ledger.floorSequence
  {
    if run != [] {
      var init := run[..|run| - 1];
      FloorNeverDecreases(c, base, s, init);
      RunKeepsInv(c, base, s, init);
      StepFloor(c, base, Exec(c, s, init).value, run[|run| - 1]);
    }
  }

  lemma NoInstallBelowFloor(c: Config, s0: State, run: seq<Action>, s: State, i: nat)
    requires Reaches(c, s0, run, s) && i < |s.installs|
    requires c.emergency != Some(s.installs[i].tx.version)
    ensures s.installs[i].tx.version >= s.installs[i].floorVersion >= s0.ledger.floorVersion
    ensures s.installs[i].tx.sequence >= s.installs[i].floorSequence >= s0.ledger.floorSequence
  {
    ReachableInv(c, s0, run, s);
    InstallFloors(c, s0, run, s);
  }

  lemma {:induction false} InstallFloors(c: Config, s0: State, run: seq<Action>, s: State)
    requires Reaches(c, s0, run, s)
    ensures forall i :: 0 <= i < |s.installs| ==>
              && s.installs[i].policy == c.emergency
              && s.installs[i].floorVersion >= s0.ledger.floorVersion
              && s.installs[i].floorSequence >= s0.ledger.floorSequence
  {
    if run != [] {
      var init := run[..|run| - 1];
      var prior := Exec(c, s0, init).value;
      InstallFloors(c, s0, init, prior);
      InitInv(c, s0);
      FloorNeverDecreases(c, Base(s0), s0, init);
    }
  }

  // ---------------------------------------------------------------- rolled-back releases

  /** A release rolled back by the k-th finished transaction is refused under every nonce, absent an
      emergency match, until `historyLimit` further transactions have finished. */
  lemma RolledBackStaysRefused(c: Config, s0: State, run: seq<Action>, s: State, k: nat, tx: Tx, consumed: seq<Tx>)
    requires Reaches(c, s0, run, s)
    requires k < |s.finished| && Blocks(s.finished[k], tx.version, tx.sequence)
    requires |s.finished| - 1 - k <= c.historyLimit - 1
    requires c.emergency != Some(tx.version)
    ensures !Enabled(c, s, Reserve(tx, consumed))
  {
    ReachableInv(c, s0, run, s);
    var i := k - (|s.finished| - |s.ledger.history|);
    assert s.ledger.history[i] == s.finished[k];
    assert RefusedByHistory(c, s.ledger, tx.version, tx.sequence);
  }

  /** Conversely the ledger refuses a release only because of one of the last `historyLimit` records. */
  lemma RefusalHasRecentCause(c: Config, s0: State, run: seq<Action>, s: State, version: Version, sequence: nat)
    returns (k: nat)
    requires Reaches(c, s0, run, s) && RefusedByHistory(c, s.ledger, version, sequence)
    ensures k < |s.finished| && Blocks(s.finished[k], version, sequence)
    ensures |s.finished| - 1 - k <= c.historyLimit - 1
  {
    ReachableInv(c, s0, run, s);
    var i :| 0 <= i < |s.ledger.history| && Blocks(s.ledger.history[i], version, sequence);
    k := i + (|s.finished| - |s.ledger.history|);
  }

  /** Rolling back a transaction whose installer ran always leaves a record that blocks its release; only a
      transaction that never reached its installer is recorded as interrupted. */
  lemma AttemptedRollbackBlocks(c: Config, s0: State, run: seq<Action>, s: State, i: nat, k: nat)
    requires Reaches(c, s0, run, s)
    requires i < |s.installs| && k < |s.finished| && s.finished[k].tx == s.installs[i].tx
    requires s.finished[k].outcome.RolledBack?
    ensures Blocks(s.finished[k], s.installs[i].tx.version, s.installs[i].tx.sequence)
  {
    ReachableInv(c, s0, run, s);
  }

  // ---------------------------------------------------------------- cached packages

  /** Every package directory the journal names exists and holds the release recorded for it. */
  ghost predicate CacheIntact(s: State) {
    && (s.journal.active.Some? ==> Holds(s.dirs, s.journal.active.value))
    && (s.journal.pending.Some? ==> Holds(s.dirs, s.journal.pending.value.release))
  }

  /** The one action that can damage the cache: cleaning up a staging directory the journal already names. */
  predicate CleansReferenced(s: State, a: Action) {
    a.Unstage? && Referenced(s.journal, a.dir)
  }

  lemma CacheStep(c: Config, base: Mark, s: State, a: Action)
    requires Inv(c, base, s) && Enabled(c, s, a) && CacheIntact(s)
    ensures CacheIntact(Effect(c, s, a)) <==> !CleansReferenced(s, a)
  {
  }

  ghost predicate Clean(c: Config, s: State, run: seq<Action>)
    requires Exec(c, s, run).Some?
    decreases |run|
  {
    run == [] ||
    (var init := run[..|run| - 1];
     Clean(c, s, init) && !CleansReferenced(Exec(c, s, init).value, run[|run| - 1]))
  }

  /** Once seeded, the active package's directory exists in every reachable state: pruning, staging cleanup
      and crashes never remove it. */
  lemma {:induction false} ActivePackageCached(c: Config, s0: State, run: seq<Action>, s: State)
    requires Reaches(c, s0, run, s) && Clean(c, s0, run)
    ensures CacheIntact(s)
  {
    if run != [] {
      var init := run[..|run| - 1];
      var prior := Exec(c, s0, init).value;
      ActivePackageCached(c, s0, init, prior);
      ReachableInv(c, s0, init, prior);
      CacheStep(c, Base(s0), prior, run[|run| - 1]);
    }
  }

  // ---------------------------------------------------------------- installed package

  /** The endpoint acknowledges exactly what `ack_health` writes: the posted transaction, when it names the
      version that is running, inside its window. */
  predicate TruthfulAck(s: State, ack: HealthAck) {
    && s.posted.Some?
    && s.posted.value.tx.version == s.running
    && s.posted.value.startedAt <= s.clock <= s.posted.value.deadline
    && ack == HealthAck(s.posted.value.tx.nonce, s.posted.value.tx.version, s.clock)
  }

  /** The mailbox holds an acknowledgement that names the transaction, from whatever time. */
  predicate AckNames(s: State, tx: Tx) {
    s.ack.Some? && s.ack.value.nonce == tx.nonce && s.ack.value.version == tx.version
  }

  /** The mailbox holds an acknowledgement of the open transaction from inside its window. */
  predicate Acknowledged(s: State) {
    s.ledger.pending.Some? && InWindow(s.ledger.pending.value, s.ack)
  }

  /** An acknowledgement is taken for a transaction whose package is no longer the installed one. */
  predicate TakesReplaced(s: State, a: Action) {
    a.Vouch? && s.ledger.pending.Some? && s.installed != s.ledger.pending.value.tx.version
  }

  /** The endpoint acknowledges truthfully, the installer reports no success that is none, and staging is
      cleaned up only where the journal names nothing. Crashes, failures and restarts fall anywhere. */
  predicate Faithful(c: Config, s: State, a: Action) {
    && Enabled(c, s, a)
    && (a.Acknowledge? && a.ack.Some? ==> TruthfulAck(s, a.ack.value))
    && (a.Reinstall? && a.ok ==> a.applied)
    && !CleansReferenced(s, a)
  }

  function SoundStep(c: Config): (State, Action) -> Option<State> {
    (s: State, a: Action) => if Faithful(c, s, a) && !TakesReplaced(s, a) then Some(Effect(c, s, a)) else None
  }

  ghost predicate AtRest(s: State, version: Version) {
    s.installed == version && s.running == version
  }

  /** Where the installed and running packages may be while a transaction is open. */
  ghost predicate CoherentOpen(s: State, old_: Version, tx: Tx) {
    && (s.installed == old_ || s.installed == tx.version)
    && (s.running == old_ || s.running == tx.version)
    && (AckNames(s, tx) && s.installed == tx.version ==> s.running == tx.version)
    && (s.stage.Opened? ==> !AckNames(s, tx) && AtRest(s, old_))
    && (s.stage == Vouched(tx) ==> AtRest(s, tx.version))
    && (s.stage.Reinstalled? ==> s.installed == old_)
    && (s.stage.Restored? ==> AtRest(s, old_))
  }

  ghost predicate Coherent(s: State) {
    && (s.ledger.pending.Some? ==> s.ledger.pending.value.startedAt <= s.ledger.pending.value.deadline)
    && if s.journal.active.None? then s.installed == s.running
       else
         var old_ := s.journal.active.value.release.version;
         if BothPending(s.journal, s.ledger) then CoherentOpen(s, old_, s.ledger.pending.value.tx)
         else if s.journal.pending.Some? then
           s.ledger.history != [] ==>
             AtRest(s, if s.ledger.history[|s.ledger.history| - 1].outcome.Healthy?
                       then s.journal.pending.value.release.release.version else old_)
         else AtRest(s, old_) && (s.stage.Cleared? ==> !AckNames(s, s.stage.tx))
  }

  lemma CoherentSettle(c: Config, base: Mark, s: State, a: Action)
    requires Inv(c, base, s) && CacheIntact(s) && Coherent(s) && Faithful(c, s, a) && a.Settle?
    ensures Coherent(Effect(c, s, a))
  {
    var t := Effect(c, s, a);
    assert t.ledger.history[|t.ledger.history| - 1].outcome == a.outcome;
  }

  lemma CoherentJournal(c: Config, base: Mark, s: State, a: Action)
    requires Inv(c, base, s) && CacheIntact(s) && Coherent(s) && Faithful(c, s, a) && WritesJournal(a)
    ensures Coherent(Effect(c, s, a))
  {}

  lemma CoherentHost(c: Config, base: Mark, s: State, a: Action)
    requires Inv(c, base, s) && CacheIntact(s) && Coherent(s) && Faithful(c, s, a)
    requires a.Install? || a.Reinstall? || a.Restart? || a.Reboot? || a.Crash?
    ensures Coherent(Effect(c, s, a))
  {}

  lemma CoherentStep(c: Config, base: Mark, s: State, a: Action)
    requires Inv(c, base, s) && CacheIntact(s) && Coherent(s) && Faithful(c, s, a) && !TakesReplaced(s, a)
    ensures Coherent(Effect(c, s, a)) && CacheIntact(Effect(c, s, a)) && Inv(c, base, Effect(c, s, a))
  {
    StepInv(c, base, s, a);
    CacheStep(c, base, s, a);
    if a.Settle? {
      CoherentSettle(c, base, s, a);
    } else if WritesJournal(a) {
      CoherentJournal(c, base, s, a);
    } else if a.Install? || a.Reinstall? || a.Restart? || a.Reboot? || a.Crash? {
      CoherentHost(c, base, s, a);
    }
  }

  /** Sound runs keep coherence, wherever they start. */
  lemma {:induction false} CoherentRun(c: Config, base: Mark, s: State, run: seq<Action>, t: State)
    requires Inv(c, base, s) && CacheIntact(s) && Coherent(s)
    requires Runs.Exec(SoundStep(c), s, run) == Some(t)
    ensures Inv(c, base, t) && CacheIntact(t) && Coherent(t)
  {
    if run != [] {
      var prior := Runs.Exec(SoundStep(c), s, run[..|run| - 1]).value;
      CoherentRun(c, base, s, run[..|run| - 1], prior);
      CoherentStep(c, base, prior, run[|run| - 1]);
    }
  }

  /** Along every run with truthful installer and endpoint in which no acknowledgement is taken for a package
      that is no longer installed, the installed and the running package are the active one whenever neither
      record has a pending transaction: rollbacks may fail, be repeated or crash at any point. */
  lemma InstalledIsActive(c: Config, s0: State, run: seq<Action>, s: State)
    requires Init(c, s0) && Runs.Exec(SoundStep(c), s0, run) == Some(s)
    ensures Coherent(s) && CacheIntact(s)
    ensures s.journal.active.Some? && s.journal.pending.None? && s.ledger.pending.None? ==>
              AtRest(s, s.journal.active.value.release.version)
  {
    InitInv(c, s0);
    CoherentRun(c, Base(s0), s0, run, s);
  }

  // ---------------------------------------------------------------- when a host can be stranded

  predicate Stranded(s: State) {
    && s.journal.pending.None? && s.ledger.pending.None?
    && s.journal.active.Some? && s.installed != s.journal.active.value.release.version
  }

  /** What may follow: faithful steps under a clock that goes forward, without a new request. */
  predicate Onward(c: Config, s: State, a: Action) {
    Faithful(c, s, a) && !a.Reserve? && (a.Tick? ==> a.to >= s.clock)
  }

  function OnwardStep(c: Config): (State, Action) -> Option<State> {
    (s: State, a: Action) => if Onward(c, s, a) then Some(Effect(c, s, a)) else None
  }

  /** The open transaction may yet end with a package installed that is not the active one. */
  ghost predicate CanStrand(c: Config, s: State) {
    exists rest :: Strands(c, s, rest)
  }

  ghost predicate Strands(c: Config, s: State, rest: seq<Action>) {
    Runs.Exec(OnwardStep(c), s, rest).Some? && Stranded(Runs.Exec(OnwardStep(c), s, rest).value)
  }

  /** What that takes: the transaction is acknowledged from inside its window, or can still be, since the
      installer or the arming of the window is still to come, or the endpoint runs the new release, or can
      be restarted into it, while the window is open. */
  predicate Strandable(s: State)
    requires s.ledger.pending.Some?
  {
    var p := s.ledger.pending.value;
    || Acknowledged(s)
    || s.stage.Opened?
    || (s.stage.Ran? && s.installed == p.tx.version)
    || ((s.installed == p.tx.version || s.running == p.tx.version) && s.clock <= p.deadline)
  }

  /** The open transaction cannot strand the host any more, or is over. */
  predicate OutOfDanger(s: State) {
    if s.ledger.pending.Some? then s.journal.pending.Some? && !Strandable(s) else !s.stage.Reserved?
  }

  /** Where the host stands when nothing can be acknowledged any more. */
  lemma HostOutOfDanger(c: Config, s: State, a: Action)
    requires BothPending(s.journal, s.ledger) && !Strandable(s) && Onward(c, s, a)
    requires a.Install? || a.Reinstall? || a.Restart? || a.Reboot?
    requires s.journal.active.Some? && Holds(s.dirs, s.journal.active.value)
    requires s.ledger.pending.value.tx.version != s.journal.active.value.release.version
    ensures OutOfDanger(Effect(c, s, a))
  {}

  lemma MailboxOutOfDanger(c: Config, s: State, a: Action)
    requires BothPending(s.journal, s.ledger) && !Strandable(s) && Onward(c, s, a)
    requires a.Acknowledge? || a.Tick? || a.DropAck? || a.Post? || a.Vouch? || a.Crash?
    ensures OutOfDanger(Effect(c, s, a)) && !a.Vouch?
  {}

  lemma RecordsOutOfDanger(c: Config, s: State, a: Action)
    requires BothPending(s.journal, s.ledger) && !Strandable(s) && Onward(c, s, a)
    requires s.stage.Ran? ==> s.ledger.pending.value.tx == s.stage.tx
    requires !s.stage.Cleared?
    requires WritesJournal(a) || WritesLedger(a) || a.StageDir? || a.Unstage? || a.Evict?
    ensures OutOfDanger(Effect(c, s, a))
  {}

  lemma NothingInDanger(c: Config, s: State, a: Action)
    requires s.ledger.pending.None? && OutOfDanger(s) && Onward(c, s, a)
    ensures OutOfDanger(Effect(c, s, a)) && !a.Vouch?
  {}

  lemma DangerStaysOut(c: Config, base: Mark, s: State, a: Action)
    requires Inv(c, base, s) && CacheIntact(s) && OutOfDanger(s) && Onward(c, s, a)
    ensures OutOfDanger(Effect(c, s, a)) && !a.Vouch?
  {
    if s.ledger.pending.None? {
      NothingInDanger(c, s, a);
    } else if a.Install? || a.Reinstall? || a.Restart? || a.Reboot? {
      HostOutOfDanger(c, s, a);
    } else if a.Acknowledge? || a.Tick? || a.DropAck? || a.Post? || a.Vouch? || a.Crash? {
      MailboxOutOfDanger(c, s, a);
    } else {
      RecordsOutOfDanger(c, s, a);
    }
  }

  lemma {:induction false} OutOfDangerNeverStrands(c: Config, base: Mark, s: State, run: seq<Action>, t: State)
    requires Inv(c, base, s) && CacheIntact(s) && Coherent(s) && OutOfDanger(s)
    requires Runs.Exec(OnwardStep(c), s, run) == Some(t)
    ensures Inv(c, base, t) && CacheIntact(t) && Coherent(t) && OutOfDanger(t)
  {
    if run != [] {
      var prior := Runs.Exec(OnwardStep(c), s, run[..|run| - 1]).value;
      OutOfDangerNeverStrands(c, base, s, run[..|run| - 1], prior);
      DangerStaysOut(c, base, prior, run[|run| - 1]);
      CoherentStep(c, base, prior, run[|run| - 1]);
    }
  }

  function Later(a: nat, b: nat): nat { if a < b then b else a }

  lemma OnwardThrice(c: Config, s: State, a1: Action, a2: Action, a3: Action)
    requires Onward(c, s, a1) && Onward(c, Effect(c, s, a1), a2)
    requires Onward(c, Effect(c, Effect(c, s, a1), a2), a3)
    ensures Runs.Exec(OnwardStep(c), s, [a1, a2, a3]) == Some(Effect(c, Effect(c, Effect(c, s, a1), a2), a3))
  {
    var s1 := Effect(c, s, a1);
    var s2 := Effect(c, s1, a2);
    Runs.Chain(OnwardStep(c), [s, s1, s2, Effect(c, s2, a3)], [a1, a2, a3]);
  }

  /** One step before. */
  lemma StrandsBefore(c: Config, s: State, a: Action)
    requires Onward(c, s, a) && CanStrand(c, Effect(c, s, a))
    ensures CanStrand(c, s)
  {
    var t := Effect(c, s, a);
    var rest :| Strands(c, t, rest);
    Runs.Chain(OnwardStep(c), [s, t], [a]);
    Runs.Concat(OnwardStep(c), s, [a], t, rest);
    assert Strands(c, s, [a] + rest);
  }

  lemma LastOfLastN<T>(s: seq<T>, x: T, n: nat)
    requires n >= 1
    ensures LastN(s + [x], n) != [] && LastN(s + [x], n)[|LastN(s + [x], n)| - 1] == x
  {}

  /** Waiting, if need be, until the time of the acknowledgement, then taking it at its word. */
  lemma SettleAcknowledged(c: Config, s: State) returns (run: seq<Action>, t: State, at: nat)
    requires BothPending(s.journal, s.ledger) && s.journal.pending.value.Id() == s.ledger.pending.value.tx
    requires Acknowledged(s)
    ensures Runs.Exec(OnwardStep(c), s, run) == Some(t)
    ensures t.journal == s.journal && t.installed == s.installed
    ensures t.ledger == Finished(c, s.ledger, Healthy, "healthy_heartbeat", at)
  {
    at := Later(s.clock, s.ack.value.at);
    var wait, settle := Tick(at), Settle(Healthy, "healthy_heartbeat", at);
    var s1 := Effect(c, s, wait);
    var s2 := Effect(c, s1, Vouch);
    t := Effect(c, s2, settle);
    run := [wait, Vouch, settle];
    OnwardThrice(c, s, wait, Vouch, settle);
  }

  lemma HealthySettles(c: Config, j: Journal, l: Ledger, at: nat)
    requires c.Valid() && BothPending(j, l) && j.pending.value.Id() == l.pending.value.tx
    ensures var l' := Finished(c, l, Healthy, "healthy_heartbeat", at);
            Settled(j, l') && l'.history[|l'.history| - 1].outcome.Healthy?
  {
    LastOfLastN(l.history, Record(l.pending.value.tx, at, Healthy, "healthy_heartbeat"), c.historyLimit);
  }

  lemma CloseStrands(c: Config, s: State)
    requires Settled(s.journal, s.ledger) && s.ledger.history[|s.ledger.history| - 1].outcome.Healthy?
    requires s.journal.pending.value.release.release.version != s.installed
    ensures Onward(c, s, Close) && Stranded(Effect(c, s, Close))
    ensures Effect(c, s, Close).journal.active == Some(s.journal.pending.value.release)
  {}

  /** Acknowledged, with the previous package installed: recovery promotes the other one. */
  lemma PromoteAcknowledged(c: Config, s: State) returns (rest: seq<Action>, t: State)
    requires c.Valid() && BothPending(s.journal, s.ledger)
    requires s.journal.pending.value.Id() == s.ledger.pending.value.tx && Acknowledged(s)
    requires s.journal.active.Some? && s.installed == s.journal.active.value.release.version
    requires s.ledger.pending.value.tx.version != s.installed
    ensures Runs.Exec(OnwardStep(c), s, rest) == Some(t) && Stranded(t)
    ensures t.journal.active == Some(s.journal.pending.value.release)
  {
    var settled, s1, at := SettleAcknowledged(c, s);
    HealthySettles(c, s.journal, s.ledger, at);
    CloseStrands(c, s1);
    rest, t := Runs.Extend(OnwardStep(c), s, settled, s1, Close);
  }

  const ROLLBACK_THEN_CRASH := [Reinstall(true, true), Restart, Crash]

  /** A rollback that waits for its deadline, reinstalls and restarts, and crashes before it is recorded. */
  function Rollback(s: State): seq<Action>
    requires s.ledger.pending.Some?
  {
    [Tick(Later(s.clock, s.ledger.pending.value.deadline))] + ROLLBACK_THEN_CRASH
  }

  lemma RollbackReached(c: Config, s: State) returns (t: State)
    requires BothPending(s.journal, s.ledger) && s.journal.active.Some? && Holds(s.dirs, s.journal.active.value)
    ensures Runs.Exec(OnwardStep(c), s, Rollback(s)) == Some(t)
    ensures t == s.(clock := Later(s.clock, s.ledger.pending.value.deadline), stage := Idle,
                    installed := s.journal.active.value.release.version,
                    running := s.journal.active.value.release.version)
  {
    var wait := Tick(Later(s.clock, s.ledger.pending.value.deadline));
    var s1 := Effect(c, s, wait);
    Runs.Chain(OnwardStep(c), [s, s1], [wait]);
    t := ReinstallRestartCrash(c, s1);
    Runs.Concat(OnwardStep(c), s, [wait], s1, ROLLBACK_THEN_CRASH);
  }

  lemma ReinstallRestartCrash(c: Config, s: State) returns (t: State)
    requires BothPending(s.journal, s.ledger) && s.journal.active.Some? && Holds(s.dirs, s.journal.active.value)
    requires s.clock >= s.ledger.pending.value.deadline
    ensures Runs.Exec(OnwardStep(c), s, ROLLBACK_THEN_CRASH) == Some(t)
    ensures t == s.(stage := Idle, installed := s.journal.active.value.release.version,
                    running := s.journal.active.value.release.version)
  {
    var s1 := Effect(c, s, Reinstall(true, true));
    var s2 := Effect(c, s1, Restart);
    t := Effect(c, s2, Crash);
    OnwardThrice(c, s, Reinstall(true, true), Restart, Crash);
  }

  /** An acknowledged transaction whose rollback reinstalls and restarts successfully and then crashes before
      it records its outcome is promoted by the recovery that follows, although its package is no longer
      installed. */
  lemma CrashAfterReinstallPromotesWrongPackage(c: Config, base: Mark, s: State)
    returns (rest: seq<Action>, t: State)
    requires Inv(c, base, s) && CacheIntact(s) && BothPending(s.journal, s.ledger) && Acknowledged(s)
    ensures Runs.Exec(OnwardStep(c), s, Rollback(s) + rest) == Some(t) && Stranded(t)
    ensures t.journal.active == Some(s.journal.pending.value.release)
  {
    var mid := RollbackReached(c, s);
    rest, t := PromoteAcknowledged(c, mid);
    Runs.Concat(OnwardStep(c), s, Rollback(s), mid, rest);
  }

  /** The endpoint runs the new release inside the window: it can acknowledge. */
  lemma Acknowledging(c: Config, s: State) returns (run: seq<Action>, t: State)
    requires s.ledger.pending.Some? && s.running == s.ledger.pending.value.tx.version
    requires s.clock <= s.ledger.pending.value.deadline
    requires s.ledger.pending.value.startedAt <= s.ledger.pending.value.deadline
    ensures Runs.Exec(OnwardStep(c), s, run) == Some(t) && Acknowledged(t)
    ensures t == s.(clock := t.clock, posted := t.posted, ack := t.ack)
  {
    var p := s.ledger.pending.value;
    var wait := Tick(Later(s.clock, p.startedAt));
    var ack := Acknowledge(Some(HealthAck(p.tx.nonce, p.tx.version, wait.to)));
    var s1 := Effect(c, s, wait);
    var s2 := Effect(c, s1, Post(Some(p)));
    t := Effect(c, s2, ack);
    run := [wait, Post(Some(p)), ack];
    OnwardThrice(c, s, wait, Post(Some(p)), ack);
  }

  lemma SameRecords(c: Config, base: Mark, s: State, t: State)
    requires Inv(c, base, s) && CacheIntact(s)
    requires t == s.(clock := t.clock, posted := t.posted, ack := t.ack)
    ensures Inv(c, base, t) && CacheIntact(t)
  {
    assert forall tx :: NeverInstalled(t, tx) <==> NeverInstalled(s, tx);
    assert forall tx :: NeverFinished(t, tx) <==> NeverFinished(s, tx);
    forall i | 0 <= i < |t.installs| ensures Accounted(t, t.installs[i].tx) {
      assert Accounted(s, s.installs[i].tx);
    }
  }

  lemma RunningStrands(c: Config, base: Mark, s: State)
    requires Inv(c, base, s) && CacheIntact(s) && Coherent(s) && BothPending(s.journal, s.ledger)
    requires s.running == s.ledger.pending.value.tx.version && s.clock <= s.ledger.pending.value.deadline
    ensures CanStrand(c, s)
  {
    var run, mid := Acknowledging(c, s);
    SameRecords(c, base, s, mid);
    var rest, t := CrashAfterReinstallPromotesWrongPackage(c, base, mid);
    Runs.Concat(OnwardStep(c), s, run, mid, Rollback(mid) + rest);
    assert Strands(c, s, run + (Rollback(mid) + rest));
  }

  /** The new release is installed and its window open: it may be restarted into. */
  lemma InstalledStrands(c: Config, base: Mark, s: State)
    requires Inv(c, base, s) && CacheIntact(s) && Coherent(s) && BothPending(s.journal, s.ledger)
    requires s.installed == s.ledger.pending.value.tx.version && s.clock <= s.ledger.pending.value.deadline
    ensures CanStrand(c, s)
  {
    CoherentStep(c, base, s, Reboot);
    RunningStrands(c, base, Effect(c, s, Reboot));
    StrandsBefore(c, s, Reboot);
  }

  /** The new release is installed and its window still to be armed. */
  lemma ArmingStrands(c: Config, base: Mark, s: State)
    requires Inv(c, base, s) && CacheIntact(s) && Coherent(s)
    requires s.stage.Ran? && s.installed == s.stage.tx.version
    ensures CanStrand(c, s)
  {
    CoherentStep(c, base, s, Arm(s.clock));
    InstalledStrands(c, base, Effect(c, s, Arm(s.clock)));
    StrandsBefore(c, s, Arm(s.clock));
  }

  /** At every moment of an open transaction, under a clock that goes forward and wherever crashes, failed
      rollbacks and restarts fall, the host can end up on a package that is not the active one if and only
      if the transaction is acknowledged from inside its window or can still be. */
  lemma StrandsExactly(c: Config, base: Mark, s: State)
    requires Inv(c, base, s) && CacheIntact(s) && Coherent(s) && BothPending(s.journal, s.ledger)
    ensures CanStrand(c, s) <==> Strandable(s)
  {
    if Acknowledged(s) {
      var rest, t := CrashAfterReinstallPromotesWrongPackage(c, base, s);
      assert Strands(c, s, Rollback(s) + rest);
    } else if s.stage.Opened? {
      CoherentStep(c, base, s, Install(true));
      ArmingStrands(c, base, Effect(c, s, Install(true)));
      StrandsBefore(c, s, Install(true));
    } else if s.stage.Ran? && s.installed == s.stage.tx.version {
      ArmingStrands(c, base, s);
    } else if Strandable(s) {
      if s.installed == s.ledger.pending.value.tx.version {
        InstalledStrands(c, base, s);
      } else {
        RunningStrands(c, base, s);
      }
    } else {
      forall rest | Strands(c, s, rest) ensures false {
        OutOfDangerNeverStrands(c, base, s, rest, Runs.Exec(OnwardStep(c), s, rest).value);
      }
    }
  }

  /** So a crash right after the restart of a rollback can strand the host if and only if the transaction was
      acknowledged in its window by then, before or after the reinstall; a crash right before the restart also
      if the endpoint still runs the new release and the window has not passed. */
  lemma RollbackStrandsIffAcknowledged(c: Config, base: Mark, s: State)
    requires Inv(c, base, s) && CacheIntact(s) && Coherent(s) && s.stage.Reinstalled?
    ensures CanStrand(c, Effect(c, Effect(c, s, Restart), Crash)) <==> Acknowledged(s)
    ensures CanStrand(c, Effect(c, s, Crash)) <==>
              Acknowledged(s) || (s.running == s.ledger.pending.value.tx.version
                                  && s.clock <= s.ledger.pending.value.deadline)
  {
    CoherentStep(c, base, s, Crash);
    StrandsExactly(c, base, Effect(c, s, Crash));
    CoherentStep(c, base, s, Restart);
    var t := Effect(c, s, Restart);
    CoherentStep(c, base, t, Crash);
    StrandsExactly(c, base, Effect(c, t, Crash));
  }
}
