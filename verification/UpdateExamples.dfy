/** Runs of the update protocol from a freshly provisioned host that reach the states in which its guarantees
  end: a policy change that reopens an installed transaction, a rollback that strands the host, and an active
  package whose directory is gone. */
module UpdateExamples {
  import opened Options
  import Runs
  import opened UpdateProtocol
  import opened UpdateInvariant
  import opened UpdateClaims

  const HEALTHY := "healthy_heartbeat"

  function Nonce(ch: char): (nonce: string)
    requires LowerHex(ch)
    ensures ValidNonce(nonce) && nonce[0] == ch
  {
    seq(32, _ => ch)
  }

  /** A host as provisioned, running at least its floor. */
  predicate Provisioned(c: Config, s: State) {
    Init(c, s) && c.emergency.None? && s.dirs == map[] && s.installed >= s.ledger.floorVersion
  }

  /** Between transactions: an active package, nothing rolled back so far, and room for another request. */
  ghost predicate Ready(s: State) {
    && Quiet(s) && s.journal.active.Some? && s.ack.None?
    && (forall i :: 0 <= i < |s.ledger.history| ==> s.ledger.history[i].outcome.Healthy?)
  }

  // ---------------------------------------------------------------- building blocks

  lemma Twice(c: Config, s: State, a: Action, b: Action)
    requires Enabled(c, s, a) && Enabled(c, Effect(c, s, a), b)
    ensures Exec(c, s, [a, b]) == Some(Effect(c, Effect(c, s, a), b))
  {
    var mid := Effect(c, s, a);
    Runs.Chain(Step(c), [s, mid, Effect(c, mid, b)], [a, b]);
  }

  /** The installed release is staged, raises the floor and becomes the active package. */
  lemma Seeded(c: Config, s: State) returns (run: seq<Action>, t: State, seed: Cached)
    requires Provisioned(c, s)
    ensures Exec(c, s, run) == Some(t)
    ensures seed == Cached(Release(s.installed, s.ledger.floorSequence, ""), "seed-0")
    ensures t == s.(journal := Journal(Some(seed), None, []), dirs := map["seed-0" := seed.release],
                    ledger := s.ledger.(floorVersion := s.installed),
                    raised := [Mark(s.installed, s.ledger.floorSequence)])
  {
    seed := Cached(Release(s.installed, s.ledger.floorSequence, ""), "seed-0");
    var stage, floor := StageDir("seed-0", seed.release), SeedFloor(Mark(s.installed, s.ledger.floorSequence));
    var s1 := Effect(c, s, stage);
    var s2 := Effect(c, s1, floor);
    t := Effect(c, s2, Seat(seed));
    run := [stage, floor, Seat(seed)];
    Runs.Chain(Step(c), [s, s1, s2, t], run);
  }

  function Entry(tx: Tx, now: nat): JournalPending {
    JournalPending(Cached(Release(tx.version, tx.sequence, ""), tx.nonce), tx.nonce, now)
  }

  /** Staged copy, receipt and ledger entry of a new transaction. */
  lemma CommitUpdate(c: Config, s: State, tx: Tx, consumed: seq<Tx>) returns (run: seq<Action>, t: State)
    requires Ready(s) && Enabled(c, s, Reserve(tx, consumed)) && tx.nonce !in s.dirs
    ensures Exec(c, s, run) == Some(t)
    ensures t == s.(journal := Journal(s.journal.active, None, consumed),
                    ledger := s.ledger.(pending := Some(LedgerPending(tx, s.clock, s.clock + c.healthTimeout))),
                    dirs := s.dirs[tx.nonce := Release(tx.version, tx.sequence, "")], stage := Committed(tx))
  {
    var stage := StageDir(tx.nonce, Release(tx.version, tx.sequence, ""));
    var s1 := Effect(c, s, stage);
    var s2 := Effect(c, s1, Reserve(tx, consumed));
    t := Effect(c, s2, Commit(tx, s.clock));
    run := [stage, Reserve(tx, consumed), Commit(tx, s.clock)];
    Runs.Chain(Step(c), [s, s1, s2, t], run);
  }

  /** And the journal entry. */
  lemma OpenUpdate(c: Config, s: State, tx: Tx, consumed: seq<Tx>) returns (run: seq<Action>, t: State)
    requires Ready(s) && Enabled(c, s, Reserve(tx, consumed)) && tx.nonce !in s.dirs
    ensures Exec(c, s, run) == Some(t)
    ensures t == s.(journal := Journal(s.journal.active, Some(Entry(tx, s.clock)), consumed),
                    ledger := s.ledger.(pending := Some(LedgerPending(tx, s.clock, s.clock + c.healthTimeout))),
                    dirs := s.dirs[tx.nonce := Release(tx.version, tx.sequence, "")], stage := Opened(tx))
  {
    var committed, mid := CommitUpdate(c, s, tx, consumed);
    var open := Open(Entry(tx, s.clock));
    t := Effect(c, Effect(c, mid, DropAck), open);
    Twice(c, mid, DropAck, open);
    Runs.Concat(Step(c), s, committed, mid, [DropAck, open]);
    run := committed + [DropAck, open];
  }

  function Report(s: State, tx: Tx): Option<HealthAck> { Some(HealthAck(tx.nonce, tx.version, s.clock)) }

  /** The package is installed, the endpoint restarted and the transaction posted. */
  lemma RunUpdate(c: Config, s: State, tx: Tx) returns (run: seq<Action>, t: State)
    requires s.stage == Opened(tx) && s.ledger.pending.Some?
    ensures Exec(c, s, run) == Some(t)
    ensures t == s.(installed := tx.version, running := tx.version, posted := s.ledger.pending,
                    stage := Idle, installs := s.installs + [Tried(c, tx, s.ledger)])
  {
    var s1 := Effect(c, s, Install(true));
    var s2 := Effect(c, s1, Restart);
    t := Effect(c, s2, Post(s.ledger.pending));
    run := [Install(true), Restart, Post(s.ledger.pending)];
    Runs.Chain(Step(c), [s, s1, s2, t], run);
  }

  /** And it acknowledges at once. */
  lemma AcknowledgeUpdate(c: Config, s: State, tx: Tx) returns (run: seq<Action>, t: State)
    requires s.stage == Opened(tx) && s.ledger.pending.Some?
    ensures Exec(c, s, run) == Some(t)
    ensures t == s.(installed := tx.version, running := tx.version, posted := s.ledger.pending, ack := Report(s, tx),
                    stage := Idle, installs := s.installs + [Tried(c, tx, s.ledger)])
  {
    var started, s1 := RunUpdate(c, s, tx);
    run, t := Runs.Extend(Step(c), s, started, s1, Acknowledge(Report(s, tx)));
  }

  /** The acknowledged transaction is recorded as healthy. */
  lemma SettleUpdate(c: Config, s: State, tx: Tx) returns (run: seq<Action>, t: State)
    requires BothPending(s.journal, s.ledger)
    requires s.journal.pending.value.Id() == tx == s.ledger.pending.value.tx
    requires Acceptable(s.ledger.pending.value, s.ack, s.clock)
    ensures Exec(c, s, run) == Some(t)
    ensures t == s.(ledger := Finished(c, s.ledger, Healthy, HEALTHY, s.clock), stage := Idle,
                    raised := s.raised + [Mark(tx.version, tx.sequence)],
                    finished := s.finished + [Record(tx, s.clock, Healthy, HEALTHY)])
  {
    var settle := Settle(Healthy, HEALTHY, s.clock);
    var s1 := Effect(c, s, Vouch);
    t := Effect(c, s1, settle);
    run := [Vouch, settle];
    Runs.Chain(Step(c), [s, s1, t], run);
  }

  /** The journal entry is closed by the recorded outcome and the mailbox emptied. */
  lemma CloseUpdate(c: Config, s: State) returns (run: seq<Action>, t: State)
    requires Settled(s.journal, s.ledger) && s.stage.Idle?
    requires s.ledger.history[|s.ledger.history| - 1].outcome.Healthy?
    ensures Exec(c, s, run) == Some(t)
    ensures t == s.(journal := Journal(Some(s.journal.pending.value.release), None, s.journal.consumed), ack := None)
  {
    var s1 := Effect(c, s, Close);
    t := Effect(c, s1, DropAck);
    run := [Close, DropAck];
    Runs.Chain(Step(c), [s, s1, t], run);
  }

  lemma HealthyHistory(c: Config, l: Ledger, at: nat)
    requires c.Valid() && l.pending.Some?
    requires forall i :: 0 <= i < |l.history| ==> l.history[i].outcome.Healthy?
    ensures var h := Finished(c, l, Healthy, HEALTHY, at).history;
            && h != [] && h[|h| - 1] == Record(l.pending.value.tx, at, Healthy, HEALTHY)
            && forall i :: 0 <= i < |h| ==> h[i].outcome.Healthy?
  {}

  /** One update from request to healthy record. */
  lemma HealthyUpdate(c: Config, s: State, tx: Tx, consumed: seq<Tx>) returns (run: seq<Action>, t: State)
    requires c.Valid() && Ready(s) && Enabled(c, s, Reserve(tx, consumed)) && tx.nonce !in s.dirs
    ensures Exec(c, s, run) == Some(t) && Ready(t)
    ensures t.journal == Journal(Some(Cached(Release(tx.version, tx.sequence, ""), tx.nonce)), None, consumed)
    ensures t.ledger.floorVersion == (if tx.version > s.ledger.floorVersion then tx.version else s.ledger.floorVersion)
    ensures t.ledger.floorSequence
            == (if tx.sequence > s.ledger.floorSequence then tx.sequence else s.ledger.floorSequence)
    ensures t.dirs == s.dirs[tx.nonce := Release(tx.version, tx.sequence, "")]
    ensures t.installs == s.installs + [Tried(c, tx, s.ledger)]
  {
    var begun, s1 := OpenUpdate(c, s, tx, consumed);
    var acknowledged, s2 := AcknowledgeUpdate(c, s1, tx);
    HealthyHistory(c, s2.ledger, s2.clock);
    var settled, s3 := SettleUpdate(c, s2, tx);
    var closed, s4 := CloseUpdate(c, s3);
    Runs.Concat(Step(c), s, begun, s1, acknowledged);
    Runs.Concat(Step(c), s, begun + acknowledged, s2, settled);
    Runs.Concat(Step(c), s, begun + acknowledged + settled, s3, closed);
    run, t := begun + acknowledged + settled + closed, s4;
  }

  // ---------------------------------------------------------------- a reopened transaction

  /** Seeded, with an empty mailbox. */
  lemma Prepared(c: Config, s0: State) returns (run: seq<Action>, t: State)
    requires Provisioned(c, s0)
    ensures Reaches(c, s0, run, t) && Ready(t) && t.installs == [] && t.journal.consumed == []
    ensures t.journal.active.value.release.version == s0.installed == t.ledger.floorVersion == t.installed == t.running
    ensures t.ledger.floorSequence == s0.ledger.floorSequence && t.ledger.history == []
    ensures t.dirs.Keys == {"seed-0"} && t.journal.active.value.directory == "seed-0" && CacheIntact(t)
  {
    var seeded, s1, seed := Seeded(c, s0);
    t := Effect(c, s1, DropAck);
    Runs.Chain(Step(c), [s1, t], [DropAck]);
    Runs.Concat(Step(c), s0, seeded, s1, [DropAck]);
    run := seeded + [DropAck];
  }

  lemma TwoUpdates(c: Config, s0: State, first: Tx, second: Tx) returns (run: seq<Action>, t: State)
    requires Provisioned(c, s0)
    requires first == Tx(Nonce('a'), s0.installed + 1.0, s0.ledger.floorSequence + 1)
    requires second == Tx(Nonce('b'), s0.installed + 2.0, s0.ledger.floorSequence + 2)
    ensures Reaches(c, s0, run, t) && Ready(t) && Installed(t, first) && t.journal.consumed == [first, second]
    ensures t.journal.active.value.release.version == second.version == t.ledger.floorVersion
    ensures t.ledger.floorSequence == second.sequence && t.journal.active.value.directory == second.nonce
    ensures t.dirs.Keys == {"seed-0", first.nonce, second.nonce}
  {
    var run1, s1 := Prepared(c, s0);
    var run2, s2 := HealthyUpdate(c, s1, first, [first]);
    var run3;
    run3, t := HealthyUpdate(c, s2, second, [first, second]);
    Runs.Concat(Step(c), s0, run1, s1, run2);
    Runs.Concat(Step(c), s0, run1 + run2, s2, run3);
    run := run1 + run2 + run3;
    assert t.installs[0].tx == first;
  }

  /** The receipt of a further request prunes that of the first update; then the supervisor crashes. */
  lemma PrunedReceipt(c: Config, s0: State) returns (run: seq<Action>, t: State, tx: Tx)
    requires Provisioned(c, s0)
    ensures Reaches(c, s0, run, t) && Quiet(t) && Installed(t, tx) && tx !in t.journal.consumed
    ensures |t.journal.consumed| == 2 && ValidNonce(tx.nonce)
    ensures forall r :: r in t.journal.consumed ==> r.nonce != tx.nonce
    ensures t.journal.active.Some? && t.journal.active.value.release.version != tx.version
    ensures t.journal.active.value.directory != tx.nonce
  {
    var v, q := s0.installed, s0.ledger.floorSequence;
    tx := Tx(Nonce('a'), v + 1.0, q + 1);
    var second, third := Tx(Nonce('b'), v + 2.0, q + 2), Tx(Nonce('c'), v + 3.0, q + 3);
    var updated, s1 := TwoUpdates(c, s0, tx, second);
    var reserve := Reserve(third, [second, third]);
    var s2 := Effect(c, s1, reserve);
    t := Effect(c, s2, Crash);
    Runs.Chain(Step(c), [s1, s2, t], [reserve, Crash]);
    Runs.Concat(Step(c), s0, updated, s1, [reserve, Crash]);
    run := updated + [reserve, Crash];
  }

  /** So, from every provisioned host, there is a run after which exempting one version lets an installed
      transaction run its installer a second time. */
  lemma PolicyChangeInstallsTwice(c: Config, s0: State)
    returns (tx: Tx, first: seq<Action>, mid: State, second: seq<Action>, t: State)
    requires Provisioned(c, s0)
    ensures Reaches(c, s0, first, mid) && Exec(c.(emergency := Some(tx.version)), mid, second) == Some(t)
    ensures exists i, j :: 0 <= i < j < |t.installs| && t.installs[i].tx == tx == t.installs[j].tx
  {
    var pruned, s1;
    pruned, s1, tx := PrunedReceipt(c, s0);
    mid := Effect(c, s1, Evict(tx.nonce));
    Runs.Chain(Step(c), [s1, mid], [Evict(tx.nonce)]);
    Runs.Concat(Step(c), s0, pruned, s1, [Evict(tx.nonce)]);
    first := pruned + [Evict(tx.nonce)];
    ReachableInv(c, s0, first, mid);
    second, t := PolicyChangeReopens(c, Base(s0), mid, tx, "", 0);
  }

  // ---------------------------------------------------------------- a stranded host

  /** A first update after the seed, up to the restart into its release. */
  lemma FirstUpdate(c: Config, s0: State) returns (run: seq<Action>, s: State, tx: Tx)
    requires Provisioned(c, s0)
    ensures Reaches(c, s0, run, s) && CacheIntact(s) && Coherent(s) && BothPending(s.journal, s.ledger)
    ensures s.ledger.pending.value.tx == tx && s.posted == s.ledger.pending && s.stage.Idle? && s.ack.None?
    ensures s.running == s.installed == tx.version
    ensures s.ledger.pending.value.startedAt == s.clock <= s.ledger.pending.value.deadline
  {
    tx := Tx(Nonce('a'), s0.installed + 1.0, s0.ledger.floorSequence + 1);
    var run1, s1 := Prepared(c, s0);
    var run2, s2 := OpenUpdate(c, s1, tx, [tx]);
    var run3;
    run3, s := RunUpdate(c, s2, tx);
    Runs.Concat(Step(c), s0, run1, s1, run2);
    Runs.Concat(Step(c), s0, run1 + run2, s2, run3);
    run := run1 + run2 + run3;
  }

  /** The endpoint acknowledges the update, and a rollback that crashes before it is recorded strands the host. */
  lemma RollbackStrands(c: Config, s0: State) returns (run: seq<Action>, s: State, rest: seq<Action>)
    requires Provisioned(c, s0)
    ensures Reaches(c, s0, run, s) && BothPending(s.journal, s.ledger) && Coherent(s) && Strands(c, s, rest)
  {
    var first, s1, tx := FirstUpdate(c, s0);
    ReachableInv(c, s0, first, s1);
    run, s := Runs.Extend(Step(c), s0, first, s1, Acknowledge(Report(s1, tx)));
    CoherentStep(c, Base(s0), s1, Acknowledge(Report(s1, tx)));
    var t;
    rest, t := CrashAfterReinstallPromotesWrongPackage(c, Base(s0), s);
    rest := Rollback(s) + rest;
  }

  /** At the deadline the previous package is reinstalled while the endpoint runs on. */
  lemma ReinstalledAtDeadline(c: Config, s0: State, s: State, tx: Tx) returns (run: seq<Action>, t: State)
    requires Inv(c, Base(s0), s) && CacheIntact(s) && Coherent(s) && BothPending(s.journal, s.ledger)
    requires s.stage.Idle? && s.ledger.pending.value.tx == tx && s.clock <= s.ledger.pending.value.deadline
    ensures Exec(c, s, run) == Some(t) && Inv(c, Base(s0), t) && CacheIntact(t) && Coherent(t)
    ensures t.stage.Reinstalled?
    ensures t == s.(clock := s.ledger.pending.value.deadline, installed := t.installed, stage := Reinstalled)
  {
    var wait, reinstall := Tick(s.ledger.pending.value.deadline), Reinstall(true, true);
    var mid := Effect(c, s, wait);
    CoherentStep(c, Base(s0), s, wait);
    t := Effect(c, mid, reinstall);
    CoherentStep(c, Base(s0), mid, reinstall);
    run := [wait, reinstall];
    Twice(c, s, wait, reinstall);
  }

  /** No acknowledgement need be there when the previous package is reinstalled: at the deadline the endpoint
      still runs the new release, and both its acknowledgement before the restart and a crash in its place
      lead to a stranded host. */
  lemma LateAcknowledgementStrands(c: Config, s0: State) returns (run: seq<Action>, s: State, ack: Action)
    requires Provisioned(c, s0)
    ensures Reaches(c, s0, run, s) && s.stage.Reinstalled? && Coherent(s) && !Acknowledged(s)
    ensures Onward(c, s, ack) && CanStrand(c, Effect(c, Effect(c, Effect(c, s, ack), Restart), Crash))
    ensures CanStrand(c, Effect(c, s, Crash))
  {
    var first, s1, tx := FirstUpdate(c, s0);
    ReachableInv(c, s0, first, s1);
    var undone;
    undone, s := ReinstalledAtDeadline(c, s0, s1, tx);
    Runs.Concat(Step(c), s0, first, s1, undone);
    run := first + undone;
    ack := Acknowledge(Report(s, tx));
    CoherentStep(c, Base(s0), s, ack);
    RollbackStrandsIffAcknowledged(c, Base(s0), s);
    RollbackStrandsIffAcknowledged(c, Base(s0), Effect(c, s, ack));
  }

  // ---------------------------------------------------------------- a missing package

  /** A seed whose journal write took effect but was reported as failed is cleaned up like any other failed
      staging: the host is left with an active package whose directory does not exist. */
  lemma SeedInDoubtLosesPackage(c: Config, s0: State) returns (run: seq<Action>, t: State)
    requires Provisioned(c, s0)
    ensures Reaches(c, s0, run, t) && Quiet(t)
    ensures t.journal.active.Some? && t.journal.active.value.directory !in t.dirs && !CacheIntact(t)
  {
    var run1, s1, seed := Seeded(c, s0);
    t := Effect(c, s1, Unstage("seed-0"));
    Runs.Chain(Step(c), [s1, t], [Unstage("seed-0")]);
    Runs.Concat(Step(c), s0, run1, s1, [Unstage("seed-0")]);
    run := run1 + [Unstage("seed-0")];
  }
}
