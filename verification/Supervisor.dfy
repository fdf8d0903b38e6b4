/** The privileged supervisor, in the form of the program: files rewritten in place, an in-memory journal,
  and calls into the package manager. Every write may succeed, fail without effect, take effect and still
  be reported as failed, or be cut off by a crash, and the endpoint and the clock move in between. `Valid`
  says that whatever happened so far is a run of `UpdateProtocol`, so every claim about runs holds here.
 */
module Supervision {
  import opened Durable
  import opened Options
  import Runs
  import opened UpdateProtocol
  import opened UpdateInvariant
  import opened UpdateClaims
  import opened SupervisorRules

  class Supervisor {
    const c: Config
    // files under the private root
    var journalFile: Journal
    var ledgerFile: Ledger
    var dirs: map<string, Release>
    // the host and the endpoint's mailbox
    var installed: Version
    var running: Version
    var ack: Option<HealthAck>
    var posted: Option<LedgerPending>
    var clock: nat
    // memory of the supervisor process
    var memory: Journal
    // history
    ghost var stage: Stage
    ghost var installs: seq<Attempt>
    ghost var raised: seq<Mark>
    ghost var finished: seq<Record>
    ghost const origin: State
    ghost var run: seq<Action>
    /** Times that something outside this code failed, refused or crashed; writes left in doubt by which the
        journal came to name a staged directory. */
    ghost var setbacks: nat
    ghost var doubts: nat
    /** Clean-ups that removed a directory the journal names. */
    ghost var lost: nat

    ghost function Now(): State
      reads this
    {
      State(journalFile, ledgerFile, dirs, installed, running, ack, posted, clock, stage, installs, raised, finished)
    }

    ghost predicate Valid()
      reads this
    {
      && Recorded(c, origin, run, Now())
      && (doubts == 0 ==> lost == 0)
      && (lost == 0 ==> CacheIntact(Now()))
    }

    /** The in-memory journal may lag behind the file only in harmless ways. */
    ghost predicate Mirrors()
      reads this
    {
      && memory.active == journalFile.active
      && ReadableReceipts(memory.consumed)
      && KeepsReplayable(c, ledgerFile, journalFile.consumed, memory.consumed)
      && (|| SamePending(memory.pending, journalFile.pending)
          || (memory.pending.None? && Settled(journalFile, ledgerFile)
              && ledgerFile.history[|ledgerFile.history| - 1].outcome.RolledBack?))
    }

    constructor (config: Config, floor: Version, host: Version)
      requires config.Valid()
      ensures Valid() && c == config && run == [] && setbacks == 0 && doubts == 0 && lost == 0
      ensures journalFile == memory == Journal(None, None, [])
      ensures ledgerFile == Ledger(floor, 0, None, []) && installed == host
    {
      c := config;
      journalFile, memory := Journal(None, None, []), Journal(None, None, []);
      ledgerFile := Ledger(floor, 0, None, []);
      dirs, installed, running, ack, posted, clock := map[], host, host, None, None, 0;
      stage, installs, raised, finished, run, setbacks, doubts, lost := Idle, [], [], [], [], 0, 0, 0;
      origin := State(Journal(None, None, []), Ledger(floor, 0, None, []), map[], host, host, None, None, 0,
                      Idle, [], [], []);
    }

    /** Whatever this object has been through, the claims about runs hold of it. */
    lemma Safe(i: nat, j: nat)
      requires Valid()
      requires i < j < |installs|
      ensures installs[i].tx != installs[j].tx
      ensures ledgerFile.floorVersion == MaxVersion(origin.ledger.floorVersion, raised)
      ensures c.emergency != Some(installs[i].tx.version) ==> installs[i].tx.version >= installs[i].floorVersion
      ensures doubts == 0 ==> lost == 0
      ensures lost == 0 && journalFile.active.Some? ==> Holds(dirs, journalFile.active.value)
    {
      RecordedInv(c, origin, run, Now());
      if c.emergency != Some(installs[i].tx.version) {
        NoInstallBelowFloor(c, origin, run, Now(), i);
      }
    }

    // -------------------------------------------------------------- environment

    /** Other processes: the endpoint may write any acknowledgement or replace the posted transaction, the
        service may restart, time passes. */
    method Environment()
      requires Valid()
      modifies this`running, this`ack, this`posted, this`clock, this`run
      ensures old(run) <= run
      ensures Valid() && clock >= old(clock)
    {
      var moves: nat :| 0 <= moves;
      for k := 0 to moves
        invariant Valid() && clock >= old(clock) && old(run) <= run
      {
        var a: Action := *;
        if a.Acknowledge? {
          Advance(c, origin, run, Now(), a);
          ack, run := a.ack, run + [a];
        } else if a.Post? {
          Advance(c, origin, run, Now(), a);
          posted, run := a.entry_, run + [a];
        } else if a.Tick? && a.to >= clock {
          Advance(c, origin, run, Now(), a);
          clock, run := a.to, run + [a];
        } else if a.Reboot? {
          Advance(c, origin, run, Now(), a);
          running, run := installed, run + [a];
        }
      }
    }

    /** The endpoint after an authenticated registration or heartbeat: it acknowledges the posted transaction
        exactly when that names the version it was built as and the time lies inside its window. */
    method AckHealth() returns (written: bool)
      requires Valid()
      modifies this`ack, this`run, this`setbacks
      ensures old(run) <= run
      ensures Valid() && setbacks >= old(setbacks)
      ensures setbacks == old(setbacks) ==>
                (written <==>
                  && posted.Some? && ValidNonce(posted.value.tx.nonce) && posted.value.tx.version == running
                  && posted.value.startedAt <= clock <= posted.value.deadline)
      ensures written ==>
                && posted.Some? && ack == Some(HealthAck(posted.value.tx.nonce, running, clock))
                && TruthfulAck(Now(), ack.value)
      ensures !written ==> ack == old(ack)
    {
      var readable := Consult();
      if !readable || !Reportable(posted, running, clock) {
        return false;
      }
      var writable := Consult();
      if !writable {
        return false;
      }
      var report := HealthAck(posted.value.tx.nonce, posted.value.tx.version, clock);
      ghost var a := Acknowledge(Some(report));
      Advance(c, origin, run, Now(), a);
      ack, run := Some(report), run + [a];
      return true;
    }

    /** Something outside this code may say no: an unreadable file, a signature, a platform check. */
    method Consult() returns (ok: bool)
      modifies this`setbacks
      ensures ok ==> setbacks == old(setbacks)
      ensures !ok ==> setbacks == old(setbacks) + 1
    {
      ok := *;
      if !ok {
        setbacks := setbacks + 1;
      }
    }

    ghost method Die()
      requires Valid()
      modifies this`stage, this`run
      ensures old(run) <= run
      ensures Valid() && stage.Idle?
    {
      Advance(c, origin, run, Now(), Crash);
      stage, run := Idle, run + [Crash];
    }

    /** A new process reads the journal back. */
    method Boot() returns (r: Result)
      requires Valid()
      modifies this`memory, this`stage, this`run, this`setbacks
      ensures old(run) <= run
      ensures Valid() && stage.Idle?
      ensures r.Ok? ==> memory == journalFile && setbacks == old(setbacks)
      ensures !r.Ok? ==> setbacks > old(setbacks)
    {
      Die();
      var readable := Consult();
      if !readable {
        return Refused("journal unreadable");
      }
      memory := journalFile;
      return Ok;
    }

    // -------------------------------------------------------------- durable writes

    /** Counts what went wrong; a crash loses the stage. */
    ghost method Note(io: Io)
      requires Valid()
      modifies this`setbacks, this`stage, this`run
      ensures old(run) <= run
      ensures Valid() && stage == (if io.Died? then Idle else old(stage))
      ensures setbacks == old(setbacks) + (if io.Done? then 0 else 1)
    {
      if io.Died? {
        Die();
      }
      setbacks := setbacks + if io.Done? then 0 else 1;
    }

    /** The same for a write of the journal, which may come to name a staged directory. */
    ghost method NoteJournal(io: Io, naming: bool)
      requires Valid()
      modifies this`setbacks, this`doubts, this`stage, this`run
      ensures old(run) <= run
      ensures Valid() && stage == (if io.Died? then Idle else old(stage))
      ensures setbacks == old(setbacks) + (if io.Done? then 0 else 1)
      ensures doubts == old(doubts) + (if io.Doubtful? && naming then 1 else 0)
    {
      Note(io);
      doubts := doubts + if io.Doubtful? && naming then 1 else 0;
    }

    method PutJournal(ghost a: Action)
      requires Valid() && WritesJournal(a) && Enabled(c, Now(), a) && Effect(c, Now(), a).journal == memory
      modifies this`journalFile, this`stage, this`run
      ensures old(run) <= run
      ensures Valid() && journalFile == memory && stage == old(Effect(c, Now(), a).stage)
    {
      JournalWrite(c, Now(), Now(), a);
      Advance(c, origin, run, Now(), a);
      stage := Effect(c, Now(), a).stage;
      journalFile, run := memory, run + [a];
    }

    /** Replaces the journal file by the in-memory journal. */
    method WriteJournal(ghost a: Action) returns (io: Io)
      requires Valid() && WritesJournal(a) && Enabled(c, Now(), a) && Effect(c, Now(), a).journal == memory
      modifies this`journalFile, this`stage, this`setbacks, this`doubts
      modifies this`running, this`ack, this`posted, this`clock, this`run
      ensures old(run) <= run
      ensures Valid() && clock >= old(clock)
      ensures setbacks == old(setbacks) + (if io.Done? then 0 else 1)
      ensures doubts == old(doubts) + (if io.Doubtful? && (a.Seat? || a.Open?) then 1 else 0)
      ensures io.Done? || io.Doubtful? ==> journalFile == memory && stage == old(Effect(c, Now(), a).stage)
      ensures io.Failed? ==> journalFile == old(journalFile) && stage == old(stage)
      ensures io.Died? ==> stage.Idle? && (journalFile == old(journalFile) || journalFile == memory)
    {
      Environment();
      JournalWrite(c, old(Now()), Now(), a);
      io := *;
      var written: bool := *;
      if io.Done? || io.Doubtful? || (io.Died? && written) {
        PutJournal(a);
      }
      NoteJournal(io, a.Seat? || a.Open?);
    }

    method PutLedger(l: Ledger, ghost a: Action)
      requires Valid() && WritesLedger(a) && Enabled(c, Now(), a) && Effect(c, Now(), a).ledger == l
      modifies this`ledgerFile, this`stage, this`raised, this`finished, this`run
      ensures old(run) <= run
      ensures Valid() && ledgerFile == l && stage == old(Effect(c, Now(), a).stage)
    {
      LedgerWrite(c, Now(), Now(), a);
      Advance(c, origin, run, Now(), a);
      ghost var next := Effect(c, Now(), a);
      stage, raised, finished := next.stage, next.raised, next.finished;
      ledgerFile, run := l, run + [a];
    }

    /** Replaces the ledger file. */
    method WriteLedger(l: Ledger, ghost a: Action) returns (io: Io)
      requires Valid() && WritesLedger(a) && Enabled(c, Now(), a) && Effect(c, Now(), a).ledger == l
      modifies this`ledgerFile, this`stage, this`raised, this`finished, this`setbacks
      modifies this`running, this`ack, this`posted, this`clock, this`run
      ensures old(run) <= run
      ensures Valid() && clock >= old(clock)
      ensures setbacks == old(setbacks) + (if io.Done? then 0 else 1)
      ensures io.Done? || io.Doubtful? ==> ledgerFile == l && stage == old(Effect(c, Now(), a).stage)
      ensures io.Failed? ==> ledgerFile == old(ledgerFile) && stage == old(stage)
      ensures io.Died? ==> stage.Idle?
    {
      Environment();
      LedgerWrite(c, old(Now()), Now(), a);
      io := *;
      var written: bool := *;
      if io.Done? || io.Doubtful? || (io.Died? && written) {
        PutLedger(l, a);
      }
      Note(io);
    }

    // -------------------------------------------------------------- cached package directories

    /** Copies the request's manifest and artifact into a new private directory. */
    method CopyRequest(dir: string, m: Release) returns (io: Io)
      requires Valid()
      modifies this`dirs, this`stage, this`setbacks, this`run
      ensures old(run) <= run
      ensures Valid()
      ensures setbacks >= old(setbacks)
      ensures io.Done? ==> dir !in old(dirs) && dirs == old(dirs)[dir := m] && stage == old(stage)
      ensures io.Failed? ==> dirs == old(dirs) && stage == old(stage)
      ensures !io.Doubtful?
      ensures setbacks == old(setbacks) ==> (io.Done? <==> dir !in old(dirs)) && !io.Died?
      ensures io.Done? ==> setbacks == old(setbacks)
    {
      if dir in dirs {
        return Failed;
      }
      var ok := Consult();
      var written: bool := *;
      if ok || written {
        Advance(c, origin, run, Now(), StageDir(dir, m));
        dirs, run := dirs[dir := m], run + [StageDir(dir, m)];
      }
      if !ok && !written {
        return Failed;
      }
      if !ok {
        Die();
        return Died;
      }
      return Done;
    }

    /** Dropping an unretained staging directory; errors are ignored. */
    method CleanUp(dir: string) returns (removed: bool)
      requires Valid()
      requires doubts == 0 ==> !Referenced(journalFile, dir)
      modifies this`dirs, this`run, this`lost
      ensures old(run) <= run
      ensures Valid()
      ensures dirs == if removed then old(dirs) - {dir} else old(dirs)
      ensures lost == old(lost) + (if removed && Referenced(journalFile, dir) then 1 else 0)
    {
      removed := *;
      if removed {
        ghost var a := Unstage(dir);
        Advance(c, origin, run, Now(), a);
        dirs, run := dirs - {dir}, run + [a];
        lost := lost + if Referenced(journalFile, dir) then 1 else 0;
      }
    }

    method Evict_(dir: string) returns (io: Io)
      requires Valid() && !Referenced(journalFile, dir)
      modifies this`dirs, this`stage, this`setbacks, this`run
      ensures old(run) <= run
      ensures Valid()
      ensures setbacks >= old(setbacks)
      ensures io.Done? <==> setbacks == old(setbacks)
      ensures dirs == old(dirs) || dirs == old(dirs) - {dir}
      ensures io.Done? ==> dirs == old(dirs) - {dir} && stage == old(stage)
      ensures io.Died? ==> stage.Idle?
      ensures !io.Died? ==> stage == old(stage)
    {
      io := *;
      var removed: bool := *;
      if io.Done? || removed {
        ghost var a := Evict(dir);
        Advance(c, origin, run, Now(), a);
        dirs, run := dirs - {dir}, run + [a];
      }
      if !io.Done? {
        setbacks := setbacks + 1;
      }
      if io.Died? {
        Die();
      }
    }

    /** Removes every cached package directory that the journal does not name. */
    method PruneCache() returns (r: Result)
      requires Valid() && memory == journalFile
      modifies this`dirs, this`stage, this`setbacks, this`run
      ensures old(run) <= run
      ensures Valid()
      ensures setbacks >= old(setbacks)
      ensures r.Ok? <==> setbacks == old(setbacks)
      ensures forall d :: d in dirs ==> d in old(dirs) && dirs[d] == old(dirs)[d]
      ensures forall d :: d in old(dirs) && (Referenced(journalFile, d) || !CacheName(d)) ==> d in dirs
      ensures r.Ok? ==> forall d :: d in dirs ==> Referenced(journalFile, d) || !CacheName(d)
      ensures r.Ok? ==> forall d :: d in dirs && ("seed-" <= d || ValidNonce(d)) ==> Referenced(journalFile, d)
      ensures r.Ok? ==> stage == old(stage)
    {
      var entries := dirs.Keys;
      while entries != {}
        invariant Valid() && entries <= dirs.Keys && setbacks == old(setbacks) && stage == old(stage)
        invariant old(run) <= run
        invariant forall d :: d in dirs ==> d in old(dirs) && dirs[d] == old(dirs)[d]
        invariant forall d :: d in old(dirs) && (Referenced(journalFile, d) || !CacheName(d)) ==> d in dirs
        invariant forall d :: d in dirs ==> d in entries || Referenced(journalFile, d) || !CacheName(d)
        decreases entries
      {
        var name :| name in entries;
        entries := entries - {name};
        if (memory.active.Some? && memory.active.value.directory == name)
           || (memory.pending.Some? && memory.pending.value.release.directory == name) {
          continue;
        }
        if CacheName(name) {
          var io := Evict_(name);
          if !io.Done? {
            return AsResult(io);
          }
        }
      }
      return Ok;
    }

    // -------------------------------------------------------------- receipts

    /** The receipt that carries a nonce, if the in-memory journal has one. */
    method FindReceipt(nonce: string) returns (found: Option<Tx>)
      ensures found.Some? ==> found.value in memory.consumed && found.value.nonce == nonce
      ensures found.None? <==> !KnownNonce(memory.consumed, nonce)
    {
      for i := 0 to |memory.consumed|
        invariant forall k :: 0 <= k < i ==> memory.consumed[k].nonce != nonce
      {
        if memory.consumed[i].nonce == nonce {
          return Some(memory.consumed[i]);
        }
      }
      return None;
    }

    /** Drops, in memory, the receipts whose releases the floor must reject. */
    method PruneReceipts()
      modifies this`memory
      ensures memory == old(memory).(consumed := Retained(c, ledgerFile, old(memory.consumed)))
    {
      RetainedMembers(c, ledgerFile, memory.consumed);
      if c.emergency.Some? {
        return;
      }
      var retained := [];
      for i := 0 to |memory.consumed|
        invariant retained == Retained(c, ledgerFile, memory.consumed[..i])
      {
        if !BelowFloor(ledgerFile, memory.consumed[i]) {
          retained := retained + [memory.consumed[i]];
        }
        assert memory.consumed[..i + 1][..i] == memory.consumed[..i];
      }
      assert memory.consumed[..|memory.consumed|] == memory.consumed;
      memory := memory.(consumed := retained);
    }

    /** What a new transaction must satisfy before its receipt is written. */
    ghost predicate Reservable(tx: Tx)
      reads this
    {
      && tx !in journalFile.consumed && !KnownNonce(memory.consumed, tx.nonce)
      && memory.pending.None?
      && memory.active.Some? && tx.version != memory.active.value.release.version
      && ledgerFile.pending.None? && Admissible(c, ledgerFile, tx)
      && !RefusedByHistory(c, ledgerFile, tx.version, tx.sequence)
    }

    /** Appending a receipt to the pruned list is an allowed write. */
    lemma ReceiptWrite(tx: Tx, reserve: bool)
      requires Valid() && Mirrors() && ValidNonce(tx.nonce) && !KnownNonce(memory.consumed, tx.nonce)
      requires memory.pending.None?
      requires if reserve then Reservable(tx) else journalFile.pending.None?
      requires |Retained(c, ledgerFile, memory.consumed)| < MAX_REQUESTS
      ensures var kept := Retained(c, ledgerFile, memory.consumed) + [tx];
              var a := if reserve then Reserve(tx, kept) else Recall(kept);
              && Enabled(c, Now(), a)
              && Effect(c, Now(), a).journal == Journal(memory.active, None, kept)
              && ReadableReceipts(kept)
              && KeepsReplayable(c, ledgerFile, journalFile.consumed, kept)
    {
      RetainedMembers(c, ledgerFile, memory.consumed);
      var rest := Retained(c, ledgerFile, memory.consumed);
      var kept := rest + [tx];
      forall i, j | 0 <= i < j < |kept| ensures kept[i].nonce != kept[j].nonce {
        assert kept[i] in memory.consumed;
      }
      forall r | r in journalFile.consumed ensures r in kept || Prunable(c, ledgerFile, r) {
        if !Prunable(c, ledgerFile, r) {
          assert r in memory.consumed && r in rest;
        }
      }
    }

    lemma MirrorsPruned(pruned: Journal)
      requires Mirrors() && pruned == memory.(consumed := Retained(c, ledgerFile, memory.consumed))
      ensures ReadableReceipts(pruned.consumed)
      ensures KeepsReplayable(c, ledgerFile, journalFile.consumed, pruned.consumed)
    {
      RetainedMembers(c, ledgerFile, memory.consumed);
    }

    /** Prunes the receipts, appends a new one unless the list is full, and writes the journal. */
    method AppendReceipt(tx: Tx, ghost reserve: bool) returns (r: Result)
      requires Valid() && Mirrors() && ValidNonce(tx.nonce) && !KnownNonce(memory.consumed, tx.nonce)
      requires memory.pending.None?
      requires if reserve then Reservable(tx) else journalFile.pending.None?
      modifies this`memory, this`journalFile, this`stage, this`setbacks, this`doubts
      modifies this`running, this`ack, this`posted, this`clock, this`run
      ensures old(run) <= run
      ensures Valid() && clock >= old(clock)
      ensures !r.Dead? ==> Mirrors()
      ensures memory.active == old(memory.active) && memory.pending == old(memory.pending)
      ensures journalFile.active == old(journalFile.active)
      ensures journalFile.pending == old(journalFile.pending) || journalFile.pending.None?
      ensures setbacks >= old(setbacks) && doubts == old(doubts)
      ensures r.Ok? ==>
                && setbacks == old(setbacks) && doubts == old(doubts) && memory == journalFile
                && memory == Journal(old(memory.active), None, Retained(c, ledgerFile, old(memory.consumed)) + [tx])
                && stage == (if reserve then Reserved(tx) else Idle)
      ensures setbacks == old(setbacks) ==> (r.Ok? <==> |Retained(c, ledgerFile, old(memory.consumed))| < MAX_REQUESTS)
    {
      if |Retained(c, ledgerFile, memory.consumed)| < MAX_REQUESTS {
        ReceiptWrite(tx, reserve);
      }
      MirrorsPruned(memory.(consumed := Retained(c, ledgerFile, memory.consumed)));
      PruneReceipts();
      if |memory.consumed| >= MAX_REQUESTS {
        return Refused("native consumed request history is full");
      }
      memory := memory.(consumed := memory.consumed + [tx]);
      ghost var a := if reserve then Reserve(tx, memory.consumed) else Recall(memory.consumed);
      var io := WriteJournal(a);
      return AsResult(io);
    }

    /** Durably remembers that a request was consumed. `reserve` is the call that precedes a new transaction;
        the other calls complete the receipt of a transaction that already exists. */
    method RememberConsumed(tx: Tx, ghost reserve: bool) returns (r: Result)
      requires Valid() && Mirrors()
      requires if reserve then Reservable(tx)
               else tx in memory.consumed || (memory.pending.None? && journalFile.pending.None?)
      modifies this`memory, this`journalFile, this`stage, this`setbacks, this`doubts
      modifies this`running, this`ack, this`posted, this`clock, this`run
      ensures old(run) <= run
      ensures Valid() && clock >= old(clock)
      ensures !r.Dead? ==> Mirrors()
      ensures memory.active == old(memory.active) && memory.pending == old(memory.pending)
      ensures journalFile.active == old(journalFile.active)
      ensures journalFile.pending == old(journalFile.pending) || journalFile.pending.None?
      ensures setbacks >= old(setbacks) && doubts == old(doubts)
      ensures r.Ok? ==> setbacks == old(setbacks) && doubts == old(doubts)
      ensures tx in old(memory.consumed) ==>
                memory == old(memory) && journalFile == old(journalFile) && stage == old(stage)
      ensures r.Ok? && tx !in old(memory.consumed) ==>
                && memory == journalFile
                && memory == Journal(old(memory.active), None, Retained(c, ledgerFile, old(memory.consumed)) + [tx])
                && stage == (if reserve then Reserved(tx) else Idle)
      ensures setbacks == old(setbacks) ==>
                (r.Ok? <==>
                  ValidNonce(tx.nonce)
                  && (tx in old(memory.consumed)
                      || (!KnownNonce(old(memory.consumed), tx.nonce)
                          && |Retained(c, ledgerFile, old(memory.consumed))| < MAX_REQUESTS)))
    {
      if !ValidNonce(tx.nonce) {
        return Refused("invalid native consumed request identity");
      }
      var known := FindReceipt(tx.nonce);
      if known.Some? {
        if known.value == tx {
          return Ok;
        }
        return Refused("consumed native request nonce changed its release identity");
      }
      r := AppendReceipt(tx, reserve);
    }

    // -------------------------------------------------------------- ledger

    method RemoveAck() returns (ok: bool)
      requires Valid()
      modifies this`ack, this`stage, this`setbacks, this`run
      ensures old(run) <= run
      ensures Valid()
      ensures ok ==> ack == None && setbacks == old(setbacks)
      ensures ok ==> stage == (if old(stage).Committed? then Cleared(old(stage).tx) else old(stage))
      ensures !ok ==> setbacks > old(setbacks) && stage == old(stage)
    {
      ok := Consult();
      if ok {
        Advance(c, origin, run, Now(), DropAck);
        ack, run := None, run + [DropAck];
        stage := if stage.Committed? then Cleared(stage.tx) else stage;
      }
    }

    method PostTransaction(p: Option<LedgerPending>) returns (ok: bool)
      requires Valid()
      modifies this`posted, this`setbacks, this`run
      ensures old(run) <= run
      ensures Valid()
      ensures ok ==> posted == p && setbacks == old(setbacks)
      ensures !ok ==> setbacks > old(setbacks)
    {
      ok := Consult();
      if ok {
        Advance(c, origin, run, Now(), Post(p));
        posted, run := p, run + [Post(p)];
      }
    }

    /** Publishes the pending transaction to the endpoint: the previous acknowledgement goes first. */
    method PublishPendingHealth(p: LedgerPending) returns (r: Result)
      requires Valid()
      modifies this`ack, this`posted, this`stage, this`setbacks, this`run
      ensures old(run) <= run
      ensures Valid()
      ensures r.Ok? ==> ack == None && posted == Some(p)
      ensures r.Ok? ==> stage == (if old(stage).Committed? then Cleared(old(stage).tx) else old(stage))
      ensures setbacks >= old(setbacks)
      ensures r.Ok? <==> setbacks == old(setbacks)
      ensures !old(stage).Committed? ==> stage == old(stage)
      ensures !r.Dead?
    {
      var removed := RemoveAck();
      if !removed {
        return Refused("mailbox");
      }
      var written := PostTransaction(Some(p));
      return if written then Ok else Refused("mailbox");
    }

    method CommitPending(tx: Tx) returns (r: Result)
      requires Valid() && stage == Reserved(tx) && ledgerFile.pending.None? && ValidNonce(tx.nonce)
      modifies this`ledgerFile, this`stage, this`raised, this`finished, this`setbacks, this`doubts
      modifies this`running, this`ack, this`posted, this`clock, this`run
      ensures old(run) <= run
      ensures Valid() && setbacks >= old(setbacks) && doubts == old(doubts)
      ensures r.Ok? <==> setbacks == old(setbacks)
      ensures r.Ok? ==>
                && doubts == old(doubts) && stage == Cleared(tx) && ack.None? && posted == ledgerFile.pending
                && ledgerFile.pending.Some? && ledgerFile.pending.value.tx == tx
                && ledgerFile == old(ledgerFile).(pending := ledgerFile.pending)
                && ledgerFile.pending.value.deadline == ledgerFile.pending.value.startedAt + c.healthTimeout
                && old(clock) <= ledgerFile.pending.value.startedAt <= clock
    {
      Environment();
      var now := clock;
      if now + c.healthTimeout >= U64_LIMIT {
        setbacks := setbacks + 1;
        return Refused("deadline overflow");
      }
      var pending := LedgerPending(tx, now, now + c.healthTimeout);
      var io := WriteLedger(ledgerFile.(pending := Some(pending)), Commit(tx, now));
      if !io.Done? {
        return AsResult(io);
      }
      r := PublishPendingHealth(pending);
    }

    /** Restarts the health window once the installer has finished. */
    method ArmHealth(tx: Tx) returns (r: Result)
      requires Valid() && BothPending(journalFile, ledgerFile) && ledgerFile.pending.value.tx == tx
      requires stage == Ran(tx) && installed == tx.version
      modifies this`ledgerFile, this`stage, this`raised, this`finished, this`setbacks, this`doubts
      modifies this`running, this`ack, this`posted, this`clock, this`run
      ensures old(run) <= run
      ensures Valid() && setbacks >= old(setbacks) && doubts == old(doubts)
      ensures r.Ok? <==> setbacks == old(setbacks)
      ensures !r.Dead? ==>
                && stage == Ran(tx) && ledgerFile.pending.Some? && ledgerFile.pending.value.tx == tx
                && ledgerFile == old(ledgerFile).(pending := ledgerFile.pending)
      ensures r.Ok? ==>
                && doubts == old(doubts) && ack.None? && posted == ledgerFile.pending
                && ledgerFile.pending.value.deadline == ledgerFile.pending.value.startedAt + c.healthTimeout
                && old(clock) <= ledgerFile.pending.value.startedAt <= clock
    {
      Environment();
      var now := clock;
      if now + c.healthTimeout >= U64_LIMIT {
        setbacks := setbacks + 1;
        return Refused("health deadline overflow");
      }
      var pending := LedgerPending(tx, now, now + c.healthTimeout);
      var io := WriteLedger(ledgerFile.(pending := Some(pending)), Arm(now));
      if !io.Done? {
        return AsResult(io);
      }
      r := PublishPendingHealth(pending);
    }

    /** Whether the endpoint acknowledged the protected transaction in its window. An unreadable mailbox counts
        as no acknowledgement. The window comes from the ledger, never from the shared mailbox. */
    method HealthStatus() returns (healthy: bool, readable: bool)
      requires Valid() && BothPending(journalFile, ledgerFile)
      requires journalFile.pending.value.Id() == ledgerFile.pending.value.tx
      modifies this`stage, this`running, this`ack, this`posted, this`clock, this`run, this`setbacks
      ensures old(run) <= run
      ensures Valid() && clock >= old(clock)
      ensures setbacks >= old(setbacks) && (readable <==> setbacks == old(setbacks))
      ensures healthy <==> readable && Acceptable(ledgerFile.pending.value, ack, clock)
      ensures healthy ==> stage == Vouched(ledgerFile.pending.value.tx)
      ensures !healthy ==> stage == old(stage)
    {
      Environment();
      readable := Consult();
      healthy := readable && Acceptable(ledgerFile.pending.value, ack, clock);
      if healthy {
        VouchFor();
      }
    }

    ghost method VouchFor()
      requires Valid() && Enabled(c, Now(), Vouch)
      modifies this`stage, this`run
      ensures old(run) <= run
      ensures Valid() && stage == Vouched(ledgerFile.pending.value.tx)
    {
      Advance(c, origin, run, Now(), Vouch);
      stage, run := Vouched(ledgerFile.pending.value.tx), run + [Vouch];
    }

    method FinishedLedger(ledger: Ledger, outcome: Outcome, reason: string, at: nat) returns (next: Ledger)
      requires ledger.pending.Some?
      ensures next == Finished(c, ledger, outcome, reason, at)
    {
      var tx := ledger.pending.value.tx;
      next := ledger;
      if outcome.Healthy? {
        if tx.version > next.floorVersion {
          next := next.(floorVersion := tx.version);
        }
        if tx.sequence > next.floorSequence {
          next := next.(floorSequence := tx.sequence);
        }
      }
      next := next.(pending := None, history := next.history + [Record(tx, at, outcome, reason)]);
      if |next.history| > c.historyLimit {
        next := next.(history := next.history[|next.history| - c.historyLimit..]);
      }
    }

    method ClearMailbox()
      requires Valid()
      modifies this`ack, this`posted, this`stage, this`setbacks, this`run
      ensures old(run) <= run
      ensures Valid() && setbacks == old(setbacks)
      ensures !old(stage).Committed? ==> stage == old(stage)
    {
      ghost var before := setbacks;
      var removed := RemoveAck();
      var withdrawn := PostTransaction(None);
      setbacks := before; // errors are ignored here
    }

    method FinishUpdate(nonce: string, outcome: Outcome, reason: string) returns (r: Result)
      requires Valid() && ledgerFile.pending.Some? && ledgerFile.pending.value.tx.nonce == nonce
      requires ValidNonce(nonce)
      requires Enabled(c, Now(), Settle(outcome, Truncated(reason), 0))
      modifies this`ledgerFile, this`stage, this`raised, this`finished, this`setbacks, this`doubts
      modifies this`running, this`ack, this`posted, this`clock, this`run
      ensures old(run) <= run
      ensures Valid() && setbacks >= old(setbacks) && doubts == old(doubts)
      ensures r.Ok? <==> setbacks == old(setbacks)
      ensures r.Ok? ==>
                && doubts == old(doubts) && stage.Idle?
                && FinishedAs(c, old(ledgerFile), outcome, Truncated(reason), ledgerFile)
      ensures !r.Ok? && !r.Dead? ==>
                || ledgerFile == old(ledgerFile)
                || FinishedAs(c, old(ledgerFile), outcome, Truncated(reason), ledgerFile)
    {
      var at := clock;
      var ledger := FinishedLedger(ledgerFile, outcome, Truncated(reason), at);
      var io := WriteLedger(ledger, Settle(outcome, Truncated(reason), at));
      if !io.Done? {
        return AsResult(io);
      }
      ClearMailbox();
      return Ok;
    }

    // -------------------------------------------------------------- packages and service

    /** Runs the installer on the accepted package. A reported success is taken at its word; a reported failure
        may have changed the installed package or not. */
    method InstallAccepted(tx: Tx) returns (io: Io)
      requires Valid() && stage == Opened(tx)
      modifies this`installed, this`installs, this`stage, this`setbacks, this`run
      ensures old(run) <= run
      ensures Valid() && stage == (if io.Died? then Idle else Ran(tx))
      ensures setbacks == old(setbacks) + (if io.Done? then 0 else 1)
      ensures !io.Doubtful?
      ensures io.Done? ==> installed == tx.version
      ensures installs == old(installs) + [Tried(c, tx, ledgerFile)]
    {
      var applied: bool := *;
      var reported: bool := *;
      var died: bool := *;
      io := if died then Died else if reported then Done else Failed;
      applied := applied || io.Done?;
      Advance(c, origin, run, Now(), Install(applied));
      installs := installs + [Tried(c, tx, ledgerFile)];
      installed := if applied then tx.version else installed;
      stage, run := Ran(tx), run + [Install(applied)];
      Note(io);
    }

    /** Runs the installer on the cached previous package. */
    method InstallPrevious() returns (io: Io)
      requires Valid() && BothPending(journalFile, ledgerFile)
      requires journalFile.active.Some? && journalFile.active.value.directory in dirs
      requires stage.Ran? || clock >= ledgerFile.pending.value.deadline
      modifies this`installed, this`stage, this`setbacks, this`run
      ensures old(run) <= run
      ensures Valid()
      ensures setbacks == old(setbacks) + (if io.Done? then 0 else 1)
      ensures !io.Doubtful?
      ensures io.Done? ==> installed == dirs[journalFile.active.value.directory].version && stage.Reinstalled?
      ensures !io.Done? ==> stage.Idle?
    {
      var applied: bool := *;
      var reported: bool := *;
      var died: bool := *;
      io := if died then Died else if reported then Done else Failed;
      applied := applied || io.Done?;
      ghost var a := Reinstall(io.Done?, applied);
      Advance(c, origin, run, Now(), a);
      installed := if applied then dirs[journalFile.active.value.directory].version else installed;
      stage, run := if io.Done? then Reinstalled else Idle, run + [a];
      Note(io);
    }

    method RestartEndpoint() returns (io: Io)
      requires Valid()
      modifies this`running, this`stage, this`setbacks, this`run
      ensures old(run) <= run
      ensures Valid()
      ensures setbacks == old(setbacks) + (if io.Done? then 0 else 1)
      ensures !io.Doubtful?
      ensures io.Done? ==> running == installed && stage == AfterRestart(old(stage))
      ensures io.Failed? ==> stage == old(stage)
      ensures io.Died? ==> stage.Idle?
    {
      io := *;
      if io.Doubtful? {
        io := Failed;
      }
      var restarted: bool := *;
      if io.Done? {
        Advance(c, origin, run, Now(), Restart);
        running, run := installed, run + [Restart];
        stage := AfterRestart(stage);
      } else if restarted {
        Advance(c, origin, run, Now(), Reboot);
        running, run := installed, run + [Reboot];
      }
      Note(io);
    }

    // -------------------------------------------------------------- rollback

    /** In memory the journal is the file, except that the start time may be newer. */
    ghost predicate InMemory()
      reads this
    {
      && memory.active == journalFile.active && memory.consumed == journalFile.consumed
      && SamePending(memory.pending, journalFile.pending)
    }

    /** Closes the journal entry of the transaction that finished last. */
    method CloseEntry() returns (r: Result)
      requires Valid() && Settled(journalFile, ledgerFile)
      requires memory == Closed(journalFile, ledgerFile)
      modifies this`journalFile, this`dirs, this`stage, this`setbacks, this`doubts
      modifies this`running, this`ack, this`posted, this`clock, this`run
      ensures old(run) <= run
      ensures Valid() && setbacks >= old(setbacks) && doubts == old(doubts)
      ensures r.Ok? <==> setbacks == old(setbacks)
      ensures r.Ok? ==> doubts == old(doubts) && journalFile == memory
      ensures journalFile == old(journalFile) || journalFile == memory
      ensures forall d :: d in dirs ==> d in old(dirs) && dirs[d] == old(dirs)[d]
      ensures forall d :: d in old(dirs) && Referenced(memory, d) ==> d in dirs
    {
      var io := WriteJournal(Close);
      if !io.Done? {
        return AsResult(io);
      }
      r := PruneCache();
    }

    /** The checks on the cached previous package. */
    method VerifyPrevious() returns (r: Result)
      requires memory.active.Some?
      modifies this`setbacks
      ensures setbacks >= old(setbacks) && !r.Dead?
      ensures r.Ok? ==> setbacks == old(setbacks) && memory.active.value.directory in dirs
      ensures setbacks == old(setbacks) && memory.active.value.directory in dirs ==> r.Ok?
    {
      if memory.active.value.directory !in dirs {
        return Refused("previous package missing");
      }
      var verified := Consult();
      if !verified {
        return Refused("previous package no longer verifies");
      }
      var signed := Consult();
      return if signed then Ok else Refused("native signature");
    }

    /** Reinstalls the cached previous package and restarts the endpoint, which goes on running in between. */
    method RestorePrevious() returns (r: Result)
      requires Valid() && InMemory() && BothPending(journalFile, ledgerFile)
      requires stage.Ran? || clock >= ledgerFile.pending.value.deadline
      modifies this`installed, this`stage, this`setbacks
      modifies this`running, this`ack, this`posted, this`clock, this`run
      ensures old(run) <= run
      ensures Valid() && setbacks >= old(setbacks)
      ensures setbacks == old(setbacks) && old(CacheIntact(Now())) ==> r.Ok?
      ensures r.Ok? ==>
                && setbacks == old(setbacks) && stage.Restored?
                && journalFile.active.Some? && journalFile.active.value.directory in dirs
                && installed == dirs[journalFile.active.value.directory].version
    {
      OpenFacts(c, origin, run, Now());
      r := VerifyPrevious();
      if !r.Ok? {
        return;
      }
      var io := InstallPrevious();
      if !io.Done? {
        return AsResult(io);
      }
      Environment();
      io := RestartEndpoint();
      return AsResult(io);
    }

    /** Records the rollback and closes the journal entry. */
    method RecordRollback(reason: string) returns (r: Result)
      requires Valid() && InMemory() && BothPending(journalFile, ledgerFile) && Truncated(reason) != INTERRUPTED
      requires stage.Restored?
      modifies this`memory, this`journalFile, this`ledgerFile, this`dirs, this`stage, this`raised,
               this`finished, this`setbacks, this`doubts
      modifies this`running, this`ack, this`posted, this`clock, this`run
      ensures old(run) <= run
      ensures Valid() && setbacks >= old(setbacks) && doubts == old(doubts)
      ensures r.Ok? <==> setbacks == old(setbacks)
      ensures r.Ok? ==>
                && doubts == old(doubts)
                && memory == journalFile == Journal(old(journalFile.active), None, old(journalFile.consumed))
                && FinishedAs(c, old(ledgerFile), RolledBack, Truncated(reason), ledgerFile)
      ensures memory.pending.Some? && !r.Dead? ==> InMemory()
      ensures memory.pending.None? && !r.Dead? ==> Mirrors()
    {
      OpenFacts(c, origin, run, Now());
      ghost var ledger := ledgerFile;
      r := FinishUpdate(memory.pending.value.nonce, RolledBack, reason);
      if r.Ok? {
        FinishedSettles(c, journalFile, ledger, RolledBack, Truncated(reason), ledgerFile);
        memory := memory.(pending := None);
        r := CloseEntry();
      }
    }

    method RollbackWith(reason: string) returns (r: Result)
      requires Valid() && InMemory() && BothPending(journalFile, ledgerFile) && Truncated(reason) != INTERRUPTED
      requires stage.Ran? || clock >= ledgerFile.pending.value.deadline
      modifies this`memory, this`journalFile, this`ledgerFile, this`dirs, this`installed, this`stage, this`raised,
               this`finished, this`setbacks, this`doubts
      modifies this`running, this`ack, this`posted, this`clock, this`run
      ensures old(run) <= run
      ensures Valid() && setbacks >= old(setbacks) && doubts == old(doubts)
      ensures setbacks == old(setbacks) && old(CacheIntact(Now())) ==> r.Ok?
      ensures r.Ok? ==>
                && setbacks == old(setbacks) && doubts == old(doubts)
                && memory == journalFile == Journal(old(journalFile.active), None, old(journalFile.consumed))
                && FinishedAs(c, old(ledgerFile), RolledBack, Truncated(reason), ledgerFile)
      ensures r.Ok? ==>
                && journalFile.active.Some? && journalFile.active.value.directory in old(dirs)
                && installed == old(dirs)[journalFile.active.value.directory].version
      ensures memory.pending.Some? && !r.Dead? ==> InMemory()
      ensures memory.pending.None? && !r.Dead? ==> Mirrors()
    {
      r := RestorePrevious();
      if r.Ok? {
        r := RecordRollback(reason);
      }
    }

    // -------------------------------------------------------------- recovery

    /** Only the ledger has the transaction: no installer ran for it. */
    method RecoverLedgerOnly() returns (r: Result)
      requires Valid() && memory == journalFile && journalFile.pending.None? && ledgerFile.pending.Some?
      modifies this`memory, this`journalFile, this`ledgerFile, this`stage, this`raised, this`finished,
               this`setbacks, this`doubts
      modifies this`running, this`ack, this`posted, this`clock, this`run
      ensures old(run) <= run
      ensures Valid() && setbacks >= old(setbacks) && doubts == old(doubts)
      ensures r.Ok? <==> setbacks == old(setbacks)
      ensures memory == old(memory) && journalFile == old(journalFile)
      ensures r.Ok? ==>
                && doubts == old(doubts)
                && FinishedAs(c, old(ledgerFile), RolledBack, INTERRUPTED, ledgerFile)
    {
      OpenFacts(c, origin, run, Now());
      var interrupted := ledgerFile.pending.value.tx;
      r := RememberConsumed(interrupted, false);
      if r.Ok? {
        assert Truncated(INTERRUPTED) == INTERRUPTED;
        r := FinishUpdate(interrupted.nonce, RolledBack, INTERRUPTED);
      }
    }

    /** Only the journal has the transaction: the ledger has already recorded its outcome. */
    method RecoverJournalOnly() returns (r: Result)
      requires Valid() && memory == journalFile && journalFile.pending.Some? && ledgerFile.pending.None?
      modifies this`memory, this`journalFile, this`dirs, this`stage, this`setbacks, this`doubts
      modifies this`running, this`ack, this`posted, this`clock, this`run
      ensures old(run) <= run
      ensures Valid() && setbacks >= old(setbacks) && doubts == old(doubts)
      ensures r.Ok? <==> setbacks == old(setbacks)
      ensures r.Ok? ==>
                && doubts == old(doubts)
                && old(ledgerFile).history != []
                && memory == journalFile == Closed(old(journalFile), ledgerFile)
    {
      OpenFacts(c, origin, run, Now());
      var pending := memory.pending.value;
      if ledgerFile.history != [] {
        var last := ledgerFile.history[|ledgerFile.history| - 1];
        if last.tx.version == pending.release.release.version && last.tx.sequence == pending.release.release.sequence {
          if last.tx.nonce != pending.nonce {
            return Refused("protected completed transaction nonce disagrees with the native journal");
          }
          r := RememberConsumed(pending.Id(), false);
          if !r.Ok? {
            return;
          }
          if last.outcome.Healthy? {
            memory := memory.(active := Some(pending.release));
          }
          memory := memory.(pending := None);
          r := CloseEntry();
          return;
        }
      }
      return Refused("native update journal disagrees with protected ledger");
    }

    /** The acknowledged transaction becomes the active package. */
    method Promote() returns (r: Result)
      requires Valid() && memory == journalFile && BothPending(journalFile, ledgerFile)
      requires stage == Vouched(ledgerFile.pending.value.tx)
      modifies this`memory, this`journalFile, this`ledgerFile, this`dirs, this`stage, this`raised, this`finished,
               this`setbacks, this`doubts
      modifies this`running, this`ack, this`posted, this`clock, this`run
      ensures old(run) <= run
      ensures Valid() && setbacks >= old(setbacks) && doubts == old(doubts)
      ensures r.Ok? <==> setbacks == old(setbacks)
      ensures r.Ok? ==>
                && doubts == old(doubts)
                && memory == journalFile
                && journalFile == Journal(Some(old(journalFile).pending.value.release), None, old(journalFile.consumed))
                && FinishedAs(c, old(ledgerFile), Healthy, "healthy_heartbeat", ledgerFile)
    {
      OpenFacts(c, origin, run, Now());
      var pending := memory.pending.value;
      ghost var ledger := ledgerFile;
      r := FinishUpdate(pending.nonce, Healthy, "healthy_heartbeat");
      if r.Ok? {
        FinishedSettles(c, journalFile, ledger, Healthy, "healthy_heartbeat", ledgerFile);
        memory := memory.(active := Some(pending.release), pending := None);
        r := CloseEntry();
      }
    }

    /** Both records have the transaction: it is promoted once acknowledged, rolled back once its deadline has
        passed, and otherwise left alone. */
    method RecoverBoth() returns (r: Result, ghost seen: State)
      requires Valid() && memory == journalFile && BothPending(journalFile, ledgerFile)
      modifies this`memory, this`journalFile, this`ledgerFile, this`dirs, this`installed, this`stage, this`raised,
               this`finished, this`setbacks, this`doubts
      modifies this`running, this`ack, this`posted, this`clock, this`run
      ensures old(run) <= run
      ensures Valid() && setbacks >= old(setbacks) && doubts == old(doubts)
      ensures setbacks == old(setbacks) && old(CacheIntact(Now())) ==> r.Ok? && doubts == old(doubts)
      ensures r.Ok? ==> memory == journalFile
      ensures r.Ok? ==>
                || KeptOpen(old(journalFile), old(ledgerFile), old(clock), journalFile, ledgerFile)
                || Promoted(c, old(journalFile), old(ledgerFile), journalFile, ledgerFile, old(installed), installed)
                || Reverted(c, old(journalFile), old(ledgerFile), old(dirs), journalFile, ledgerFile, installed)
      ensures setbacks == old(setbacks) && old(CacheIntact(Now())) ==>
                && OnlyEnvironment(old(Now()).(stage := seen.stage), seen) && Passed(c, origin, old(run), run, seen)
                && DecidedOn(c, seen, journalFile, ledgerFile, installed)
    {
      OpenFacts(c, origin, run, Now());
      seen := Now();
      var authoritative := ledgerFile.pending.value;
      if authoritative.tx != memory.pending.value.Id() {
        return Refused("protected transaction identities disagree"), seen;
      }
      r := RememberConsumed(authoritative.tx, false);
      if !r.Ok? {
        return;
      }
      var healthy, _ := HealthStatus();
      seen := Now();
      ghost var then_ := run;
      PassedNow(c, origin, old(run), run, seen);
      if healthy {
        r := Promote();
      } else if clock >= authoritative.deadline {
        assert Truncated("healthy_heartbeat_timeout") == "healthy_heartbeat_timeout";
        r := RollbackWith("healthy_heartbeat_timeout");
      }
      PassedLater(c, origin, old(run), then_, run, seen);
    }

    /** Runs after every start. With nothing failing outside it always succeeds, so the branches that report a
        disagreement are dead; it leaves a transaction open only while its deadline lies ahead, and where
        nothing is open it changes nothing. */
    method RecoverOrAck() returns (r: Result, ghost seen: State)
      requires Valid() && memory == journalFile
      modifies this`memory, this`journalFile, this`ledgerFile, this`dirs, this`installed, this`stage, this`raised,
               this`finished, this`setbacks, this`doubts
      modifies this`running, this`ack, this`posted, this`clock, this`run
      ensures old(run) <= run
      ensures Valid() && setbacks >= old(setbacks) && doubts == old(doubts)
      ensures setbacks == old(setbacks) && old(CacheIntact(Now())) ==> r.Ok? && doubts == old(doubts)
      ensures r.Ok? ==> memory == journalFile
      ensures r.Ok? ==>
                Recovered(c, old(journalFile), old(ledgerFile), old(dirs), old(installed), old(clock),
                          journalFile, ledgerFile, dirs, installed)
      ensures setbacks == old(setbacks) && old(CacheIntact(Now())) && old(BothPending(journalFile, ledgerFile)) ==>
                && OnlyEnvironment(old(Now()).(stage := seen.stage), seen) && Passed(c, origin, old(run), run, seen)
                && DecidedOn(c, seen, journalFile, ledgerFile, installed)
    {
      seen := Now();
      var readable := Consult();
      if !readable {
        return Refused("ledger unreadable"), seen;
      }
      if memory.pending.None? {
        if ledgerFile.pending.Some? {
          r := RecoverLedgerOnly();
          return;
        }
        return Ok, seen;
      }
      if ledgerFile.pending.None? {
        r := RecoverJournalOnly();
      } else {
        r, seen := RecoverBoth();
      }
    }

    // -------------------------------------------------------------- acceptance

    lemma NotYetConsumed(tx: Tx)
      requires Mirrors() && !KnownNonce(memory.consumed, tx.nonce) && Admissible(c, ledgerFile, tx)
      ensures tx !in journalFile.consumed
    {
      MemberKnown(memory.consumed, tx);
    }

    /** The checks on the staged copy, in the order in which they refuse. */
    method VerifyStaged(tx: Tx) returns (r: Result)
      requires memory.active.Some?
      modifies this`setbacks
      ensures setbacks >= old(setbacks) && !r.Dead?
      ensures r.Ok? ==> setbacks == old(setbacks) && Verifies(c, memory, ledgerFile, tx)
      ensures setbacks == old(setbacks) && Verifies(c, memory, ledgerFile, tx) ==> r.Ok?
    {
      var genuine := Consult();
      if !genuine {
        return Refused("signed manifest or package does not verify");
      }
      if !Admissible(c, ledgerFile, tx) {
        return Refused("anti-rollback floor");
      }
      if ledgerFile.pending.Some? {
        return Refused("an update transaction is already pending");
      }
      if tx.version == memory.active.value.release.version {
        return Refused("the requested version is already installed");
      }
      if RefusedByHistory(c, ledgerFile, tx.version, tx.sequence) {
        return Refused("the requested release was already rolled back");
      }
      var signed := Consult();
      return if signed then Ok else Refused("native signature");
    }

    lemma FreshMirrors()
      requires Valid() && memory == journalFile
      ensures Mirrors()
    {
      OpenFacts(c, origin, run, Now());
    }

    /** The journal entry that must precede the installer. `retained` says that the journal now names the staged
        directory. */
    method JournalTransaction(tx: Tx, m: Release) returns (r: Result, retained: bool)
      requires Valid() && memory == journalFile && memory.pending.None? && stage == Cleared(tx)
      requires m.version == tx.version && m.sequence == tx.sequence && Holds(dirs, Cached(m, tx.nonce))
      modifies this`memory, this`journalFile, this`stage, this`setbacks, this`doubts
      modifies this`running, this`ack, this`posted, this`clock, this`run
      ensures old(run) <= run
      ensures Valid() && setbacks >= old(setbacks) && doubts >= old(doubts)
      ensures memory == old(memory).(pending := memory.pending) && memory.pending.Some?
      ensures memory.pending.value.release == Cached(m, tx.nonce) && memory.pending.value.nonce == tx.nonce
      ensures !retained && !r.Dead? ==>
                if doubts == old(doubts) then journalFile == old(journalFile) else Referenced(journalFile, tx.nonce)
      ensures retained || r.Dead? ==> doubts == old(doubts)
      ensures r.Ok? <==> setbacks == old(setbacks)
      ensures r.Ok? ==> retained && stage == Opened(tx) && memory == journalFile
    {
      var entry := JournalPending(Cached(m, tx.nonce), tx.nonce, clock);
      memory := memory.(pending := Some(entry));
      var io := WriteJournal(Open(entry));
      if !io.Done? {
        return AsResult(io), false;
      }
      retained := true;
      var told := Consult();
      r := if told then Ok else Refused("request acknowledgement");
    }

    /** Ledger entry, then journal entry. */
    method CommitAndJournal(tx: Tx, m: Release) returns (r: Result, retained: bool)
      requires Valid() && memory == journalFile && memory.pending.None? && stage == Reserved(tx)
      requires ledgerFile.pending.None? && ValidNonce(tx.nonce)
      requires m.version == tx.version && m.sequence == tx.sequence && Holds(dirs, Cached(m, tx.nonce))
      modifies this`memory, this`journalFile, this`ledgerFile, this`stage, this`raised, this`finished,
               this`setbacks, this`doubts
      modifies this`running, this`ack, this`posted, this`clock, this`run
      ensures old(run) <= run
      ensures Valid() && setbacks >= old(setbacks) && doubts >= old(doubts)
      ensures memory == old(memory).(pending := memory.pending)
      ensures memory.pending.None? ==> journalFile == old(journalFile)
      ensures !retained && !r.Dead? ==>
                if doubts == old(doubts) then journalFile == old(journalFile) else Referenced(journalFile, tx.nonce)
      ensures retained || r.Dead? ==> doubts == old(doubts)
      ensures r.Ok? <==> setbacks == old(setbacks)
      ensures r.Ok? ==>
                && doubts == old(doubts) && retained && stage == Opened(tx) && memory == journalFile
                && PendingIn(c, tx, m, old(journalFile), old(ledgerFile), journalFile, ledgerFile)
    {
      retained := false;
      r := CommitPending(tx);
      if r.Ok? {
        r, retained := JournalTransaction(tx, m);
      }
    }

    /** Receipt first: a transaction that reached the ledger can never be taken up again. */
    method OpenTransaction(tx: Tx, m: Release) returns (r: Result, retained: bool)
      requires Valid() && Mirrors() && Reservable(tx) && ValidNonce(tx.nonce)
      requires m.version == tx.version && m.sequence == tx.sequence && Holds(dirs, Cached(m, tx.nonce))
      requires doubts == 0 ==> !Referenced(journalFile, tx.nonce)
      modifies this`memory, this`journalFile, this`ledgerFile, this`stage, this`raised, this`finished,
               this`setbacks, this`doubts
      modifies this`running, this`ack, this`posted, this`clock, this`run
      ensures old(run) <= run
      ensures Valid() && setbacks >= old(setbacks) && doubts >= old(doubts)
      ensures !r.Dead? && memory.pending.None? ==> Mirrors()
      ensures !retained && !r.Dead? && !old(Referenced(journalFile, tx.nonce)) ==>
                (Referenced(journalFile, tx.nonce) <==> doubts > old(doubts))
      ensures retained || r.Dead? ==> doubts == old(doubts)
      ensures r.Ok? ==>
                && setbacks == old(setbacks) && doubts == old(doubts) && retained && stage == Opened(tx)
                && memory == journalFile
                && PendingIn(c, tx, m,
                             Journal(old(memory.active), None,
                                     Retained(c, old(ledgerFile), old(memory.consumed)) + [tx]),
                             old(ledgerFile), journalFile, ledgerFile)
      ensures setbacks == old(setbacks) ==>
                (r.Ok? <==> |Retained(c, old(ledgerFile), old(memory.consumed))| < MAX_REQUESTS)
    {
      MemberKnown(memory.consumed, tx);
      retained := false;
      r := RememberConsumed(tx, true);
      if r.Ok? {
        FreshMirrors();
        r, retained := CommitAndJournal(tx, m);
        if memory.pending.None? {
          FreshMirrors();
        }
      }
    }

    /** The start time of the armed window, copied into the journal. */
    method StampJournal() returns (r: Result)
      requires Valid() && memory == journalFile && BothPending(journalFile, ledgerFile)
      modifies this`memory, this`journalFile, this`stage, this`setbacks, this`doubts
      modifies this`running, this`ack, this`posted, this`clock, this`run
      ensures old(run) <= run
      ensures Valid() && setbacks >= old(setbacks) && doubts == old(doubts)
      ensures r.Ok? <==> setbacks == old(setbacks)
      ensures r.Ok? ==> doubts == old(doubts) && memory == journalFile
      ensures !r.Dead? ==> InMemory() && journalFile.pending.Some? && stage == old(stage)
      ensures !r.Dead? ==> SameEntry(old(journalFile), journalFile)
    {
      var startedAt := ledgerFile.pending.value.startedAt;
      memory := memory.(pending := Some(memory.pending.value.(startedAt := startedAt)));
      var io := WriteJournal(Restamp(startedAt));
      r := AsResult(io);
    }

    /** Install, arm the health window, stamp, restart. The journal entry is already durable. */
    method InstallAndRestart(tx: Tx) returns (r: Result)
      requires Valid() && memory == journalFile && BothPending(journalFile, ledgerFile)
      requires stage == Opened(tx) && ledgerFile.pending.value.tx == tx
      modifies this`memory, this`journalFile, this`ledgerFile, this`installed, this`installs, this`stage, this`raised,
               this`finished, this`setbacks, this`doubts
      modifies this`running, this`ack, this`posted, this`clock, this`run
      ensures old(run) <= run
      ensures Valid() && setbacks >= old(setbacks) && doubts == old(doubts)
      ensures r.Ok? <==> setbacks == old(setbacks)
      ensures installs == old(installs) + [Tried(c, tx, old(ledgerFile))]
      ensures r.Ok? ==> doubts == old(doubts) && memory == journalFile && installed == tx.version
      ensures !r.Dead? ==>
                && InMemory() && BothPending(journalFile, ledgerFile) && (r.Ok? || stage.Ran?)
                && SameEntry(old(journalFile), journalFile)
                && ledgerFile == old(ledgerFile).(pending := ledgerFile.pending) && ledgerFile.pending.value.tx == tx
      ensures r.Ok? ==>
                && ledgerFile.pending.value.deadline == ledgerFile.pending.value.startedAt + c.healthTimeout
                && old(clock) <= ledgerFile.pending.value.startedAt
    {
      var io := InstallAccepted(tx);
      if !io.Done? {
        return AsResult(io);
      }
      r := ArmHealth(tx);
      if !r.Ok? {
        return;
      }
      r := StampJournal();
      if !r.Ok? {
        return;
      }
      io := RestartEndpoint();
      r := AsResult(io);
    }

    /** The checks before the request is copied. */
    method CheckRequest(nonce: string) returns (r: Result)
      modifies this`setbacks
      ensures setbacks >= old(setbacks) && !r.Dead?
      ensures var fit := ValidNonce(nonce) && !KnownNonce(memory.consumed, nonce)
                         && memory.active.Some? && memory.active.value.directory in dirs;
              (r.Ok? ==> fit && setbacks == old(setbacks)) && (fit && setbacks == old(setbacks) ==> r.Ok?)
    {
      if !ValidNonce(nonce) {
        return Refused("invalid request nonce");
      }
      var known := FindReceipt(nonce);
      if known.Some? {
        return Refused("native request nonce was already consumed");
      }
      if memory.active.None? {
        return Refused("seed the current signed package before enabling native updates");
      }
      if memory.active.value.directory !in dirs {
        return Refused("previous package missing");
      }
      var recoverable := Consult();
      return if recoverable then Ok else Refused("previous package no longer verifies");
    }

    /** Everything that precedes the installer. */
    method PrepareRequest(nonce: string, m: Release) returns (r: Result, ghost cleaned: bool)
      requires Valid() && Mirrors() && memory.pending.None?
      modifies this`memory, this`journalFile, this`ledgerFile, this`dirs, this`stage, this`raised,
               this`finished, this`setbacks, this`doubts, this`lost
      modifies this`running, this`ack, this`posted, this`clock, this`run
      ensures old(run) <= run
      ensures Valid() && setbacks >= old(setbacks) && doubts >= old(doubts)
      ensures lost > old(lost) ==> cleaned
      ensures old(lost) == 0 ==> (lost > 0 <==> cleaned && doubts > old(doubts))
      ensures !r.Dead? && memory.pending.None? ==> Mirrors()
      ensures r.Ok? ==>
                && setbacks == old(setbacks) && doubts == old(doubts)
                && stage == Opened(Tx(nonce, m.version, m.sequence))
                && memory == journalFile
                && PendingIn(c, stage.tx, m,
                             Journal(old(memory.active), None,
                                     Retained(c, old(ledgerFile), old(memory.consumed)) + [stage.tx]),
                             old(ledgerFile), journalFile, ledgerFile)
      ensures setbacks == old(setbacks) ==>
                (r.Ok? <==> Acceptance(c, old(memory), old(ledgerFile), old(dirs), nonce, m))
    {
      r := CheckRequest(nonce);
      if !r.Ok? {
        return r, false;
      }
      var io := CopyRequest(nonce, m);
      if !io.Done? {
        return AsResult(io), false;
      }
      r, cleaned := OpenStaged(nonce, m);
    }

    /** Verifies the staged copy and opens its transaction; the copy is removed unless the journal names it. */
    method OpenStaged(nonce: string, m: Release) returns (r: Result, ghost cleaned: bool)
      requires Valid() && Mirrors() && memory.pending.None? && memory.active.Some?
      requires ValidNonce(nonce) && !KnownNonce(memory.consumed, nonce) && Holds(dirs, Cached(m, nonce))
      requires lost == 0 ==> !Referenced(journalFile, nonce)
      modifies this`memory, this`journalFile, this`ledgerFile, this`dirs, this`stage, this`raised,
               this`finished, this`setbacks, this`doubts, this`lost
      modifies this`running, this`ack, this`posted, this`clock, this`run
      ensures old(run) <= run
      ensures Valid() && setbacks >= old(setbacks) && doubts >= old(doubts)
      ensures lost > old(lost) ==> cleaned
      ensures old(lost) == 0 ==> (lost > 0 <==> cleaned && doubts > old(doubts))
      ensures !r.Dead? && memory.pending.None? ==> Mirrors()
      ensures r.Ok? ==>
                && setbacks == old(setbacks) && doubts == old(doubts)
                && stage == Opened(Tx(nonce, m.version, m.sequence))
                && memory == journalFile
                && PendingIn(c, stage.tx, m,
                             Journal(old(memory.active), None,
                                     Retained(c, old(ledgerFile), old(memory.consumed)) + [stage.tx]),
                             old(ledgerFile), journalFile, ledgerFile)
      ensures setbacks == old(setbacks) ==>
                (r.Ok? <==>
                  && Verifies(c, old(memory), old(ledgerFile), Tx(nonce, m.version, m.sequence))
                  && |Retained(c, old(ledgerFile), old(memory.consumed))| < MAX_REQUESTS)
    {
      var tx := Tx(nonce, m.version, m.sequence);
      var retained := false;
      cleaned := false;
      r := VerifyStaged(tx);
      if r.Ok? {
        NotYetConsumed(tx);
        r, retained := OpenTransaction(tx, m);
      }
      if !retained && !r.Dead? {
        cleaned := CleanUp(nonce);
      }
    }

    /** Accepts one request. With nothing failing outside, it installs exactly the requests that meet
        `Acceptance`; afterwards both records hold the transaction, its window starts after the install, and the
        installed package is the requested one. Any failure after the journal entry rolls back at once. */
    method AcceptRequest(nonce: string, m: Release) returns (r: Result, ghost cleaned: bool)
      requires Valid() && Mirrors() && memory.pending.None?
      modifies this`memory, this`journalFile, this`ledgerFile, this`dirs, this`installed, this`installs, this`stage,
               this`raised, this`finished, this`setbacks, this`doubts, this`lost
      modifies this`running, this`ack, this`posted, this`clock, this`run
      ensures old(run) <= run
      ensures Valid() && setbacks >= old(setbacks) && doubts >= old(doubts)
      ensures lost > old(lost) ==> cleaned
      ensures old(lost) == 0 ==> (lost > 0 <==> cleaned && doubts > old(doubts))
      ensures !r.Dead? && memory.pending.None? ==> Mirrors()
      ensures setbacks == old(setbacks) ==>
                (r.Ok? <==> Acceptance(c, old(memory), old(ledgerFile), old(dirs), nonce, m))
      ensures r.Ok? ==>
                && setbacks == old(setbacks) && doubts == old(doubts) && memory == journalFile
                && Accepted(c, Tx(nonce, m.version, m.sequence), m,
                            old(memory), old(ledgerFile), journalFile, ledgerFile)
                && installed == m.version
                && installs == old(installs)
                   + [Tried(c, Tx(nonce, m.version, m.sequence), old(ledgerFile))]
      ensures installs == old(installs)
              || installs == old(installs)
                 + [Tried(c, Tx(nonce, m.version, m.sequence), old(ledgerFile))]
    {
      r, cleaned := PrepareRequest(nonce, m);
      if !r.Ok? {
        return;
      }
      r := InstallAndRestart(Tx(nonce, m.version, m.sequence));
      if r.Refused? {
        var reason := "native_install_failed: " + r.reason;
        assert Truncated(reason)[0] == 'n';
        var undone := RollbackWith(reason);
        if !undone.Ok? {
          r := undone;
        }
      }
    }

    // -------------------------------------------------------------- seeding

    method RaiseFloor(m: Release) returns (io: Io)
      requires Valid() && journalFile.pending.None? && ledgerFile.pending.None?
      modifies this`ledgerFile, this`stage, this`raised, this`finished, this`setbacks, this`doubts
      modifies this`running, this`ack, this`posted, this`clock, this`run
      ensures old(run) <= run
      ensures Valid() && doubts == old(doubts)
      ensures setbacks == old(setbacks) + (if io.Done? then 0 else 1)
      ensures io.Done? ==> SeedRecorded(m, old(ledgerFile), ledgerFile)
    {
      var ledger := ledgerFile;
      if m.version > ledger.floorVersion {
        ledger := ledger.(floorVersion := m.version);
      }
      if m.sequence > ledger.floorSequence {
        ledger := ledger.(floorSequence := m.sequence);
      }
      io := WriteLedger(ledger, SeedFloor(Mark(m.version, m.sequence)));
    }

    /** Records the floor of a verified seed, then makes it the active package. */
    method SeatSeed(dir: string, m: Release) returns (r: Result, retained: bool)
      requires Valid() && memory == journalFile && memory.pending.None? && ledgerFile.pending.None?
      requires Holds(dirs, Cached(m, dir)) && m.version == installed
      requires doubts == 0 ==> !Referenced(journalFile, dir)
      modifies this`memory, this`journalFile, this`ledgerFile, this`stage, this`raised, this`finished,
               this`setbacks, this`doubts
      modifies this`running, this`ack, this`posted, this`clock, this`run
      ensures old(run) <= run
      ensures Valid() && setbacks >= old(setbacks) && doubts >= old(doubts)
      ensures r.Ok? <==> setbacks == old(setbacks)
      ensures retained <==> r.Ok?
      ensures !retained && !r.Dead? && !old(Referenced(journalFile, dir)) ==>
                (Referenced(journalFile, dir) <==> doubts > old(doubts))
      ensures retained || r.Dead? ==> doubts == old(doubts)
      ensures r.Ok? ==>
                && doubts == old(doubts) && memory == journalFile
                && journalFile == old(journalFile).(active := Some(Cached(m, dir)))
                && SeedRecorded(m, old(ledgerFile), ledgerFile)
    {
      retained := false;
      var io := RaiseFloor(m);
      if !io.Done? {
        return AsResult(io), false;
      }
      memory := memory.(active := Some(Cached(m, dir)));
      io := WriteJournal(Seat(Cached(m, dir)));
      retained := io.Done?;
      r := AsResult(io);
    }

    method VerifySeed(m: Release) returns (r: Result)
      modifies this`setbacks
      ensures setbacks >= old(setbacks) && !r.Dead?
      ensures r.Ok? ==> setbacks == old(setbacks) && SeedVerifies(c, ledgerFile, installed, m)
      ensures setbacks == old(setbacks) && SeedVerifies(c, ledgerFile, installed, m) ==> r.Ok?
    {
      var genuine := Consult();
      if !genuine {
        return Refused("signed manifest or package does not verify");
      }
      if !Admissible(c, ledgerFile, Tx("", m.version, m.sequence)) {
        return Refused("anti-rollback floor");
      }
      if ledgerFile.pending.Some? {
        return Refused("an update transaction is already pending");
      }
      if m.version != installed {
        return Refused("rollback seed must match the installed agent version");
      }
      var signed := Consult();
      return if signed then Ok else Refused("native signature");
    }

    /** Verifies and seats a staged seed; the copy is removed unless the journal names it. */
    method SeatStaged(dir: string, m: Release) returns (r: Result, ghost cleaned: bool)
      requires Valid() && memory == journalFile && memory.pending.None? && Holds(dirs, Cached(m, dir))
      requires lost == 0 ==> !Referenced(journalFile, dir)
      modifies this`memory, this`journalFile, this`ledgerFile, this`dirs, this`stage, this`raised, this`finished,
               this`setbacks, this`doubts, this`lost
      modifies this`running, this`ack, this`posted, this`clock, this`run
      ensures old(run) <= run
      ensures Valid() && setbacks >= old(setbacks) && doubts >= old(doubts)
      ensures lost > old(lost) ==> cleaned
      ensures old(lost) == 0 ==> (lost > 0 <==> cleaned && doubts > old(doubts))
      ensures setbacks == old(setbacks) ==> (r.Ok? <==> SeedVerifies(c, old(ledgerFile), installed, m))
      ensures r.Ok? ==>
                && setbacks == old(setbacks) && doubts == old(doubts) && memory == journalFile
                && journalFile == old(journalFile).(active := Some(Cached(m, dir)))
                && SeedRecorded(m, old(ledgerFile), ledgerFile)
    {
      var retained := false;
      cleaned := false;
      r := VerifySeed(m);
      if r.Ok? {
        r, retained := SeatSeed(dir, m);
      }
      if retained {
        r := PruneCache();
      } else if !r.Dead? {
        cleaned := CleanUp(dir);
      }
    }

    /** Stages a seed, then verifies and seats it. */
    method SeedStaged(dir: string, m: Release) returns (r: Result, ghost cleaned: bool)
      requires Valid() && memory == journalFile && memory.pending.None?
      modifies this`memory, this`journalFile, this`ledgerFile, this`dirs, this`stage, this`raised, this`finished,
               this`setbacks, this`doubts, this`lost
      modifies this`running, this`ack, this`posted, this`clock, this`run
      ensures old(run) <= run
      ensures Valid() && setbacks >= old(setbacks) && doubts >= old(doubts)
      ensures lost > old(lost) ==> cleaned
      ensures old(lost) == 0 ==> (lost > 0 <==> cleaned && doubts > old(doubts))
      ensures setbacks == old(setbacks) ==>
                (r.Ok? <==> dir !in old(dirs) && SeedVerifies(c, old(ledgerFile), installed, m))
      ensures r.Ok? ==>
                && setbacks == old(setbacks) && doubts == old(doubts) && memory == journalFile
                && journalFile == old(journalFile).(active := Some(Cached(m, dir)))
                && SeedRecorded(m, old(ledgerFile), ledgerFile)
    {
      FreshDirectory(dir);
      var io := CopyRequest(dir, m);
      if !io.Done? {
        return AsResult(io), false;
      }
      r, cleaned := SeatStaged(dir, m);
    }

    lemma FreshDirectory(dir: string)
      requires Valid()
      ensures dir !in dirs && lost == 0 ==> !Referenced(journalFile, dir)
    {}

    /** The receipt of the active package, which the seed is about to replace, must not get lost. */
    method RememberActive() returns (r: Result)
      requires Valid() && memory == journalFile && memory.pending.None?
      modifies this`memory, this`journalFile, this`stage, this`setbacks, this`doubts
      modifies this`running, this`ack, this`posted, this`clock, this`run
      ensures old(run) <= run
      ensures Valid() && setbacks >= old(setbacks) && doubts == old(doubts)
      ensures setbacks == old(setbacks) ==> (r.Ok? <==> ActiveReceiptFits(c, old(journalFile), ledgerFile))
      ensures r.Ok? ==>
                && setbacks == old(setbacks) && memory == journalFile
                && journalFile.active == old(journalFile).active && journalFile.pending.None?
                && KeepsReplayable(c, ledgerFile, old(journalFile.consumed), journalFile.consumed)
    {
      FreshMirrors();
      if memory.active.None? || !ValidNonce(memory.active.value.directory) {
        return Ok;
      }
      var active := memory.active.value;
      RetainedMembers(c, ledgerFile, memory.consumed);
      r := RememberConsumed(Tx(active.directory, active.release.version, active.release.sequence), false);
    }

    /** Provisions the rollback package that matches the installed agent. */
    method Seed(dir: string, m: Release) returns (r: Result, ghost cleaned: bool)
      requires Valid()
      modifies this`memory, this`journalFile, this`ledgerFile, this`dirs, this`stage, this`raised, this`finished,
               this`setbacks, this`doubts, this`lost
      modifies this`running, this`ack, this`posted, this`clock, this`run
      ensures old(run) <= run
      ensures Valid() && setbacks >= old(setbacks) && doubts >= old(doubts)
      ensures lost > old(lost) ==> cleaned
      ensures old(lost) == 0 ==> (lost > 0 <==> cleaned && doubts > old(doubts))
      ensures setbacks == old(setbacks) ==>
                (r.Ok? <==>
                  && old(journalFile.pending.None?) && old(ledgerFile.pending.None?)
                  && ActiveReceiptFits(c, old(journalFile), old(ledgerFile)) && dir !in old(dirs)
                  && m.version == installed
                  && (c.emergency == Some(m.version)
                      || (m.version >= old(ledgerFile).floorVersion && m.sequence >= old(ledgerFile).floorSequence)))
      ensures r.Ok? ==>
                && setbacks == old(setbacks) && doubts == old(doubts) && memory == journalFile
                && old(journalFile.pending.None?) && SeedVerifies(c, old(ledgerFile), installed, m)
                && journalFile.active == Some(Cached(m, dir)) && journalFile.pending.None?
                && KeepsReplayable(c, old(ledgerFile), old(journalFile.consumed), journalFile.consumed)
                && SeedRecorded(m, old(ledgerFile), ledgerFile)
    {
      cleaned := false;
      r := Boot();
      if !r.Ok? {
        return;
      }
      if memory.pending.Some? {
        return Refused("cannot replace rollback cache during a pending update"), false;
      }
      r := RememberActive();
      if !r.Ok? {
        return;
      }
      r, cleaned := SeedStaged(dir, m);
    }

    // -------------------------------------------------------------- the supervising pass

    /** Reads the journal, recovers and prunes. From whatever state a crash left, once the deadline has passed and
        nothing outside fails, nothing is open afterwards. */
    method StartUp() returns (r: Result, ghost seen: State)
      requires Valid()
      modifies this`memory, this`journalFile, this`ledgerFile, this`dirs, this`installed, this`stage, this`raised,
               this`finished, this`setbacks, this`doubts
      modifies this`running, this`ack, this`posted, this`clock, this`run
      ensures old(run) <= run
      ensures Valid() && setbacks >= old(setbacks) && doubts == old(doubts)
      ensures r.Ok? ==> memory == journalFile
      ensures setbacks == old(setbacks) && old(CacheIntact(Now())) ==> r.Ok?
      ensures r.Ok? && old(ledgerFile.pending.Some? ==> clock >= ledgerFile.pending.value.deadline) ==>
                journalFile.pending.None? && ledgerFile.pending.None?
      ensures r.Ok? ==> forall d :: d in dirs && ("seed-" <= d || ValidNonce(d)) ==> Referenced(journalFile, d)
      ensures setbacks == old(setbacks) && old(CacheIntact(Now())) && old(BothPending(journalFile, ledgerFile)) ==>
                && OnlyEnvironment(old(Now()).(stage := seen.stage), seen) && Passed(c, origin, old(run), run, seen)
                && DecidedOn(c, seen, journalFile, ledgerFile, installed)
    {
      seen := Now();
      r := Boot();
      if !r.Ok? {
        return;
      }
      ghost var s, booted := Now(), run;
      r, seen := RecoverOrAck();
      if !r.Ok? {
        return;
      }
      ghost var recovered := run;
      if s.ledger.pending.Some? ==> s.clock >= s.ledger.pending.value.deadline {
        RecoveryCompletes(c, s.journal, s.ledger, s.dirs, s.installed, s.clock,
                          journalFile, ledgerFile, dirs, installed);
      }
      r := PruneCache();
      PassedWithin(c, origin, old(run), booted, recovered, run, seen);
    }

    /** Takes up requests in order until one is open; `taken` lists how each ended. A refused request does not
        stop the pass. */
    method TakeUpRequests(requests: seq<(string, Release)>) returns (r: Result, taken: seq<Result>)
      requires Valid() && Mirrors() && memory.pending.None?
      modifies this
      ensures old(run) <= run
      ensures Valid() && setbacks >= old(setbacks)
      ensures old(installs) <= installs && |installs| <= |old(installs)| + |taken|
      ensures |taken| <= |requests| && (r.Ok? ==> memory.pending.Some? || |taken| == |requests|)
      ensures forall k :: 0 <= k < |taken| - 1 ==> taken[k].Refused?
      ensures taken != [] && taken[|taken| - 1].Ok? ==> memory.pending.Some?
      ensures requests != [] ==>
                && taken != []
                && (setbacks == old(setbacks) ==>
                      (taken[0].Ok? <==>
                        old(Acceptance(c, memory, ledgerFile, dirs, requests[0].0, requests[0].1))))
    {
      taken := [];
      ghost var first := requests != [] && Acceptance(c, memory, ledgerFile, dirs, requests[0].0, requests[0].1);
      for k := 0 to |requests|
        invariant Valid() && Mirrors() && memory.pending.None? && |taken| == k && old(run) <= run
        invariant setbacks >= old(setbacks) && old(installs) <= installs && |installs| <= |old(installs)| + k
        invariant forall i :: 0 <= i < k ==> taken[i].Refused?
        invariant if k == 0 then memory == old(memory) && ledgerFile == old(ledgerFile) && dirs == old(dirs)
                                 && setbacks == old(setbacks)
                  else setbacks == old(setbacks) ==> !first
      {
        var end, _ := AcceptRequest(requests[k].0, requests[k].1);
        taken := taken + [end];
        if end.Dead? {
          return Dead, taken;
        }
        if memory.pending.Some? {
          break;
        }
      }
      r := Ok;
    }

    /** One pass of the supervisor after a start or a sleep. */
    method SupervisePass(requests: seq<(string, Release)>) returns (r: Result, taken: seq<Result>)
      requires Valid()
      modifies this
      ensures old(run) <= run
      ensures Valid() && setbacks >= old(setbacks)
      ensures old(installs) <= installs && |installs| <= |old(installs)| + |taken|
      ensures |taken| <= |requests| && (r.Ok? ==> memory.pending.Some? || |taken| == |requests|)
      ensures forall k :: 0 <= k < |taken| - 1 ==> taken[k].Refused?
    {
      taken := [];
      ghost var seen: State;
      r, seen := StartUp();
      if r.Ok? && memory.pending.None? {
        FreshMirrors();
        r, taken := TakeUpRequests(requests);
      }
    }
  }
}
