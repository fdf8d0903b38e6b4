/** The two-record native update protocol as a state machine.

  The supervisor's journal and the protected ledger are separate durable files, so every durable
  write is an action of its own. A crash may follow any action, and the endpoint, the clock and the
  package manager act between any two of them. `Exec` runs a sequence of actions; `UpdateInvariant`
  and `UpdateClaims` prove what holds in every state it reaches, and `Supervisor` proves that the
  code only ever performs these actions.
 */
module UpdateProtocol {
  import opened Options
  import Runs

  /** Releases are only compared. A countable total order embeds in the rationals, so `real` stands
      for semantic versions in the order that the parsed versions carry. */
  type Version = real

  const MAX_REQUESTS := 200
  const U64_LIMIT := 0x1_0000_0000_0000_0000
  const INTERRUPTED := "interrupted_before_install"

  datatype Config = Config(emergency: Option<Version>, healthTimeout: nat, historyLimit: nat) {
    predicate Valid() {
      30 <= healthTimeout <= 3600 && 1 <= historyLimit <= 100
    }
  }

  /** The identity of a transaction; a consumed-request receipt carries the same three fields. */
  datatype Tx = Tx(nonce: string, version: Version, sequence: nat)

  /** A signed manifest. `digest` stands for the signed fields that the protocol never compares. */
  datatype Release = Release(version: Version, sequence: nat, digest: string)
  datatype Cached = Cached(release: Release, directory: string)
  datatype JournalPending = JournalPending(release: Cached, nonce: string, startedAt: nat) {
    function Id(): Tx { Tx(nonce, release.release.version, release.release.sequence) }
  }
  datatype Journal = Journal(active: Option<Cached>, pending: Option<JournalPending>, consumed: seq<Tx>)

  datatype LedgerPending = LedgerPending(tx: Tx, startedAt: nat, deadline: nat)
  datatype Outcome = Healthy | RolledBack
  datatype Record = Record(tx: Tx, at: nat, outcome: Outcome, reason: string)
  datatype Ledger = Ledger(floorVersion: Version, floorSequence: nat,
                           pending: Option<LedgerPending>, history: seq<Record>)

  datatype HealthAck = HealthAck(nonce: string, version: Version, at: nat)

  /** How far the running supervisor process has come. Lost in a crash. */
  datatype Stage =
    | Idle
    | Reserved(tx: Tx)   // receipt durable
    | Committed(tx: Tx)  // ledger entry durable
    | Cleared(tx: Tx)    // stale health acknowledgement removed
    | Opened(tx: Tx)     // journal entry durable, forward install still to run
    | Ran(tx: Tx)        // forward install attempted, the request still in hand
    | Vouched(tx: Tx)    // an acceptable acknowledgement was read
    | Reinstalled        // previous package reinstalled, endpoint not yet restarted
    | Restored           // previous package reinstalled and endpoint restarted

  /** History variables: forward installs with the floor and the emergency policy in force, everything that
      raised the floor, and every record ever appended to the ledger's bounded history. */
  datatype Attempt = Attempt(tx: Tx, floorVersion: Version, floorSequence: nat, policy: Option<Version>)
  datatype Mark = Mark(version: Version, sequence: nat)

  datatype State = State(
    journal: Journal,
    ledger: Ledger,
    dirs: map<string, Release>,
    installed: Version,
    running: Version,
    ack: Option<HealthAck>,
    posted: Option<LedgerPending>,
    clock: nat,
    stage: Stage,
    installs: seq<Attempt>,
    raised: seq<Mark>,
    finished: seq<Record>)

  function Tried(c: Config, tx: Tx, l: Ledger): Attempt {
    Attempt(tx, l.floorVersion, l.floorSequence, c.emergency)
  }

  predicate LowerHex(ch: char) { '0' <= ch <= '9' || 'a' <= ch <= 'f' }

  predicate ValidNonce(nonce: string) {
    |nonce| == 32 && forall i :: 0 <= i < |nonce| ==> LowerHex(nonce[i])
  }

  predicate BelowFloor(l: Ledger, tx: Tx) {
    tx.version < l.floorVersion || tx.sequence < l.floorSequence
  }

  predicate EmergencyMatch(c: Config, version: Version) {
    c.emergency == Some(version)
  }

  /** The floor check of a signed manifest. */
  predicate Admissible(c: Config, l: Ledger, tx: Tx) {
    EmergencyMatch(c, tx.version) || !BelowFloor(l, tx)
  }

  /** A receipt may be dropped only when no emergency policy is set and the floor rejects its release. */
  predicate Prunable(c: Config, l: Ledger, tx: Tx) {
    c.emergency.None? && BelowFloor(l, tx)
  }

  predicate Blocks(r: Record, version: Version, sequence: nat) {
    r.outcome.RolledBack? && r.reason != INTERRUPTED && r.tx.version == version && r.tx.sequence == sequence
  }

  predicate RefusedByHistory(c: Config, l: Ledger, version: Version, sequence: nat) {
    !EmergencyMatch(c, version) && exists i :: 0 <= i < |l.history| && Blocks(l.history[i], version, sequence)
  }

  predicate DistinctNonces(receipts: seq<Tx>) {
    forall i, j :: 0 <= i < j < |receipts| ==> receipts[i].nonce != receipts[j].nonce
  }

  /** What reading the journal back insists on. */
  predicate ReadableReceipts(receipts: seq<Tx>) {
    |receipts| <= MAX_REQUESTS && DistinctNonces(receipts)
  }

  predicate KeepsReplayable(c: Config, l: Ledger, before: seq<Tx>, after: seq<Tx>) {
    forall tx :: tx in before ==> tx in after || Prunable(c, l, tx)
  }

  /** An acknowledgement of the open transaction from inside its health window. */
  predicate InWindow(lp: LedgerPending, ack: Option<HealthAck>) {
    && ack.Some?
    && ack.value.nonce == lp.tx.nonce
    && ack.value.version == lp.tx.version
    && lp.startedAt <= ack.value.at <= lp.deadline
  }

  predicate Acceptable(lp: LedgerPending, ack: Option<HealthAck>, clock: nat) {
    InWindow(lp, ack) && ack.value.at <= clock
  }

  function LastN<T>(s: seq<T>, n: nat): seq<T> {
    if |s| > n then s[|s| - n..] else s
  }

  function Finished(c: Config, l: Ledger, outcome: Outcome, reason: string, at: nat): Ledger
    requires l.pending.Some?
  {
    var tx := l.pending.value.tx;
    Ledger(if outcome.Healthy? && tx.version > l.floorVersion then tx.version else l.floorVersion,
           if outcome.Healthy? && tx.sequence > l.floorSequence then tx.sequence else l.floorSequence,
           None,
           LastN(l.history + [Record(tx, at, outcome, reason)], c.historyLimit))
  }

  function Closed(j: Journal, l: Ledger): Journal
    requires j.pending.Some? && l.history != []
  {
    Journal(if l.history[|l.history| - 1].outcome.Healthy? then Some(j.pending.value.release) else j.active,
            None, j.consumed)
  }

  /** The last finished transaction is the one the journal still holds open. */
  predicate Settled(j: Journal, l: Ledger) {
    && j.pending.Some? && l.pending.None? && l.history != []
    && l.history[|l.history| - 1].tx == j.pending.value.Id()
  }

  predicate Referenced(j: Journal, dir: string) {
    (j.active.Some? && j.active.value.directory == dir)
    || (j.pending.Some? && j.pending.value.release.directory == dir)
  }

  predicate Holds(dirs: map<string, Release>, cached: Cached) {
    cached.directory in dirs && dirs[cached.directory] == cached.release
  }

  predicate BothPending(j: Journal, l: Ledger) {
    j.pending.Some? && l.pending.Some?
  }

  datatype Action =
    // durable writes of the supervisor
    | Reserve(tx: Tx, consumed: seq<Tx>)
    | Recall(consumed: seq<Tx>)
    | Commit(tx: Tx, now: nat)
    | Open(entry: JournalPending)
    | Arm(now: nat)
    | Restamp(startedAt: nat)
    | Settle(outcome: Outcome, reason: string, at: nat)
    | Close
    | SeedFloor(mark: Mark)
    | Seat(cached: Cached)
    // cached package directories
    | StageDir(dir: string, release: Release)
    | Unstage(dir: string)
    | Evict(dir: string)
    // packages and service
    | Install(applied: bool)
    | Reinstall(ok: bool, applied: bool)
    | Restart
    // shared mailbox
    | DropAck
    | Post(entry_: Option<LedgerPending>)
    | Vouch
    // environment
    | Acknowledge(ack: Option<HealthAck>)
    | Reboot
    | Tick(to: nat)
    | Crash

  predicate WritesJournal(a: Action) {
    a.Reserve? || a.Recall? || a.Open? || a.Restamp? || a.Close? || a.Seat?
  }

  predicate WritesLedger(a: Action) {
    a.Commit? || a.Arm? || a.Settle? || a.SeedFloor?
  }

  predicate Enabled(c: Config, s: State, a: Action) {
    match a
    case Reserve(tx, consumed) =>
      && ValidNonce(tx.nonce)
      && s.journal.active.Some? && tx.version != s.journal.active.value.release.version
      && s.ledger.pending.None?
      && Admissible(c, s.ledger, tx) && !RefusedByHistory(c, s.ledger, tx.version, tx.sequence)
      && tx !in s.journal.consumed && tx in consumed
      && ReadableReceipts(consumed) && KeepsReplayable(c, s.ledger, s.journal.consumed, consumed)
      && (s.journal.pending.Some? ==>
            Settled(s.journal, s.ledger) && s.ledger.history[|s.ledger.history| - 1].outcome.RolledBack?)
    case Recall(consumed) =>
      && s.journal.pending.None?
      && ReadableReceipts(consumed) && KeepsReplayable(c, s.ledger, s.journal.consumed, consumed)
    case Commit(tx, now) => s.stage == Reserved(tx) && s.ledger.pending.None?
    case Open(p) =>
      s.stage == Cleared(p.Id()) && p.release.directory == p.nonce && Holds(s.dirs, p.release)
    // the window is restarted only right after an install that reported success
    case Arm(now) => s.stage.Ran? && BothPending(s.journal, s.ledger) && s.installed == s.stage.tx.version
    case Restamp(t) => s.journal.pending.Some?
    case Settle(outcome, reason, at) =>
      && s.ledger.pending.Some?
      && (outcome.Healthy? ==> s.stage == Vouched(s.ledger.pending.value.tx))
      && (outcome.RolledBack? ==>
            if s.journal.pending.Some? then s.stage.Restored? && reason != INTERRUPTED else reason == INTERRUPTED)
    case Close => Settled(s.journal, s.ledger)
    case SeedFloor(mark) => s.journal.pending.None? && s.ledger.pending.None?
    case Seat(cached) =>
      && s.journal.pending.None? && s.ledger.pending.None?
      && Holds(s.dirs, cached) && cached.release.version == s.installed
      && cached.release.version <= s.ledger.floorVersion && cached.release.sequence <= s.ledger.floorSequence
    case StageDir(dir, release) => dir !in s.dirs
    case Unstage(dir) => true
    case Evict(dir) => !Referenced(s.journal, dir)
    case Install(applied) => s.stage.Opened?
    // a rollback: the request in hand failed, or its deadline has passed
    case Reinstall(ok, applied) =>
      && BothPending(s.journal, s.ledger) && s.journal.active.Some? && s.journal.active.value.directory in s.dirs
      && (s.stage.Ran? || s.clock >= s.ledger.pending.value.deadline)
    case Restart => true
    case DropAck => true
    case Post(p) => true
    case Vouch =>
      && BothPending(s.journal, s.ledger) && s.journal.pending.value.Id() == s.ledger.pending.value.tx
      && Acceptable(s.ledger.pending.value, s.ack, s.clock)
    case Acknowledge(ack) => true
    case Reboot => true
    case Tick(t) => true
    case Crash => true
  }

  function AfterRestart(stage: Stage): Stage {
    if stage.Reinstalled? then Restored else if stage.Ran? then Idle else stage
  }

  function Effect(c: Config, s: State, a: Action): State
    requires Enabled(c, s, a)
  {
    match a
    case Reserve(tx, consumed) =>
      s.(journal := Journal(s.journal.active, None, consumed), stage := Reserved(tx))
    case Recall(consumed) => s.(journal := s.journal.(consumed := consumed), stage := Idle)
    case Commit(tx, now) =>
      s.(ledger := s.ledger.(pending := Some(LedgerPending(tx, now, now + c.healthTimeout))),
         stage := Committed(tx))
    case Open(p) => s.(journal := s.journal.(pending := Some(p)), stage := Opened(p.Id()))
    case Arm(now) =>
      s.(ledger := s.ledger.(pending := Some(LedgerPending(s.ledger.pending.value.tx, now, now + c.healthTimeout))))
    case Restamp(t) =>
      s.(journal := s.journal.(pending := Some(s.journal.pending.value.(startedAt := t))))
    case Settle(outcome, reason, at) =>
      var tx := s.ledger.pending.value.tx;
      s.(ledger := Finished(c, s.ledger, outcome, reason, at), stage := Idle,
         raised := if outcome.Healthy? then s.raised + [Mark(tx.version, tx.sequence)] else s.raised,
         finished := s.finished + [Record(tx, at, outcome, reason)])
    case Close => s.(journal := Closed(s.journal, s.ledger))
    case SeedFloor(mark) =>
      var l := s.ledger;
      s.(ledger := l.(floorVersion := if mark.version > l.floorVersion then mark.version else l.floorVersion,
                      floorSequence := if mark.sequence > l.floorSequence then mark.sequence else l.floorSequence),
         stage := Idle, raised := s.raised + [mark])
    case Seat(cached) => s.(journal := s.journal.(active := Some(cached)), stage := Idle)
    case StageDir(dir, release) => s.(dirs := s.dirs[dir := release])
    case Unstage(dir) => s.(dirs := s.dirs - {dir})
    case Evict(dir) => s.(dirs := s.dirs - {dir})
    case Install(applied) =>
      s.(installed := if applied then s.stage.tx.version else s.installed, stage := Ran(s.stage.tx),
         installs := s.installs + [Tried(c, s.stage.tx, s.ledger)])
    case Reinstall(ok, applied) =>
      s.(installed := if applied then s.dirs[s.journal.active.value.directory].version else s.installed,
         stage := if ok then Reinstalled else Idle)
    case Restart => s.(running := s.installed, stage := AfterRestart(s.stage))
    case DropAck => s.(ack := None, stage := if s.stage.Committed? then Cleared(s.stage.tx) else s.stage)
    case Post(p) => s.(posted := p)
    case Vouch => s.(stage := Vouched(s.ledger.pending.value.tx))
    case Acknowledge(ack) => s.(ack := ack)
    case Reboot => s.(running := s.installed)
    case Tick(t) => s.(clock := t)
    case Crash => s.(stage := Idle)
  }

  /** A freshly provisioned host: no journal, the ledger default, no cached package. */
  predicate Init(c: Config, s: State) {
    && c.Valid()
    && s.journal == Journal(None, None, [])
    && s.ledger.pending.None? && s.ledger.history == []
    && s.running == s.installed
    && s.stage.Idle? && s.installs == [] && s.raised == [] && s.finished == []
  }

  function Step(c: Config): (State, Action) -> Option<State> {
    (s: State, a: Action) => if Enabled(c, s, a) then Some(Effect(c, s, a)) else None
  }

  /** Runs `run` from `s`; None when some action is not enabled where it occurs. */
  function Exec(c: Config, s: State, run: seq<Action>): Option<State> {
    Runs.Exec(Step(c), s, run)
  }
}
