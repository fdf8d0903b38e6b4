/** The decisions of the supervisor as functions and predicates: which receipts stay, which requests and seeds are
  acceptable, and what recovery does to the records. */
module SupervisorRules {
  import opened Durable
  import opened Options
  import Runs
  import opened UpdateProtocol
  import opened UpdateInvariant
  import opened UpdateClaims

  datatype Result = Ok | Refused(reason: string) | Dead

  function AsResult(io: Io): Result {
    match io
    case Done => Ok
    case Failed => Refused("write failed")
    case Doubtful => Refused("directory sync failed")
    case Died => Dead
  }

  predicate HexDigit(ch: char) { '0' <= ch <= '9' || 'a' <= ch <= 'f' || 'A' <= ch <= 'F' }

  predicate CacheName(name: string) {
    || (|name| >= 5 && name[..5] == "seed-")
    || (|name| == 32 && forall i :: 0 <= i < |name| ==> HexDigit(name[i]))
  }

  function Truncated(reason: string): string {
    if |reason| > 1024 then reason[..1024] else reason
  }

  /** The receipts that survive pruning, in order. */
  function Retained(c: Config, l: Ledger, receipts: seq<Tx>): seq<Tx> {
    if receipts == [] then []
    else
      var rest := Retained(c, l, receipts[..|receipts| - 1]);
      if Prunable(c, l, receipts[|receipts| - 1]) then rest else rest + [receipts[|receipts| - 1]]
  }

  /** Pruning keeps exactly what is not prunable, in order. */
  lemma RetainedMembers(c: Config, l: Ledger, receipts: seq<Tx>)
    ensures forall tx :: tx in Retained(c, l, receipts) <==> tx in receipts && !Prunable(c, l, tx)
    ensures |Retained(c, l, receipts)| <= |receipts|
    ensures c.emergency.Some? ==> Retained(c, l, receipts) == receipts
    ensures DistinctNonces(receipts) ==> DistinctNonces(Retained(c, l, receipts))
  {
    RetainedExactly(c, l, receipts);
    if DistinctNonces(receipts) {
      RetainedNonces(c, l, receipts);
    }
  }

  lemma {:induction false} RetainedExactly(c: Config, l: Ledger, receipts: seq<Tx>)
    ensures forall tx :: tx in Retained(c, l, receipts) <==> tx in receipts && !Prunable(c, l, tx)
    ensures |Retained(c, l, receipts)| <= |receipts|
    ensures c.emergency.Some? ==> Retained(c, l, receipts) == receipts
  {
    if receipts != [] {
      var init, last := receipts[..|receipts| - 1], receipts[|receipts| - 1];
      RetainedExactly(c, l, init);
      assert receipts == init + [last];
    }
  }

  lemma {:induction false} RetainedNonces(c: Config, l: Ledger, receipts: seq<Tx>)
    requires DistinctNonces(receipts)
    ensures DistinctNonces(Retained(c, l, receipts))
  {
    if receipts != [] {
      var init, last := receipts[..|receipts| - 1], receipts[|receipts| - 1];
      DistinctInit(receipts);
      RetainedNonces(c, l, init);
      if !Prunable(c, l, last) {
        LastIsFresh(c, l, init, last);
        DistinctSnoc(Retained(c, l, init), last);
      }
    }
  }

  predicate FreshNonce(receipts: seq<Tx>, nonce: string) {
    forall tx :: tx in receipts ==> tx.nonce != nonce
  }

  lemma DistinctInit(receipts: seq<Tx>)
    requires receipts != [] && DistinctNonces(receipts)
    ensures DistinctNonces(receipts[..|receipts| - 1])
    ensures FreshNonce(receipts[..|receipts| - 1], receipts[|receipts| - 1].nonce)
  {}

  lemma LastIsFresh(c: Config, l: Ledger, receipts: seq<Tx>, last: Tx)
    requires FreshNonce(receipts, last.nonce)
    ensures FreshNonce(Retained(c, l, receipts), last.nonce)
  {
    RetainedExactly(c, l, receipts);
  }

  lemma DistinctSnoc(receipts: seq<Tx>, tx: Tx)
    requires DistinctNonces(receipts) && FreshNonce(receipts, tx.nonce)
    ensures DistinctNonces(receipts + [tx])
  {
    assert forall i :: 0 <= i < |receipts| ==> receipts[i] in receipts;
  }

  predicate KnownNonce(receipts: seq<Tx>, nonce: string) {
    exists i :: 0 <= i < |receipts| && receipts[i].nonce == nonce
  }

  lemma MemberKnown(receipts: seq<Tx>, tx: Tx)
    ensures tx in receipts ==> KnownNonce(receipts, tx.nonce)
  {
    if tx in receipts {
      var i :| 0 <= i < |receipts| && receipts[i] == tx;
    }
  }

  /** When a request is accepted, provided nothing outside the protocol says no. */
  predicate Acceptance(c: Config, j: Journal, l: Ledger, dirs: map<string, Release>, nonce: string, m: Release) {
    && ValidNonce(nonce) && !KnownNonce(j.consumed, nonce)
    && j.active.Some? && j.active.value.directory in dirs && nonce !in dirs
    && Verifies(c, j, l, Tx(nonce, m.version, m.sequence))
    && |Retained(c, l, j.consumed)| < MAX_REQUESTS
  }

  lemma {:induction false} DistinctFits(a: seq<Tx>, b: seq<Tx>)
    requires DistinctNonces(a) && forall tx :: tx in a ==> tx in b
    ensures |a| <= |b|
  {
    if a != [] {
      var init, last := a[..|a| - 1], a[|a| - 1];
      DistinctInit(a);
      assert last in a;
      var i :| 0 <= i < |b| && b[i] == last;
      var rest := b[..i] + b[i + 1..];
      forall tx | tx in init ensures tx in rest {
        assert tx in a;
        var k :| 0 <= k < |b| && b[k] == tx;
        assert k < i ==> rest[k] == tx;
        assert k > i ==> rest[k - 1] == tx;
      }
      DistinctFits(init, rest);
    }
  }

  /** With nothing failing, a request is accepted if and only if the protocol allows its receipt to be written for
      some list of receipts, its nonce is new, the active package is cached and its directory is free. */
  lemma AcceptanceExactly(c: Config, s: State, nonce: string, m: Release)
    requires ReadableReceipts(s.journal.consumed) && s.journal.pending.None?
    ensures Acceptance(c, s.journal, s.ledger, s.dirs, nonce, m)
            <==> && (exists consumed :: Enabled(c, s, Reserve(Tx(nonce, m.version, m.sequence), consumed)))
                 && !KnownNonce(s.journal.consumed, nonce)
                 && s.journal.active.Some? && s.journal.active.value.directory in s.dirs && nonce !in s.dirs
  {
    var tx := Tx(nonce, m.version, m.sequence);
    var kept := Retained(c, s.ledger, s.journal.consumed);
    RetainedMembers(c, s.ledger, s.journal.consumed);
    MemberKnown(s.journal.consumed, tx);
    if !KnownNonce(s.journal.consumed, nonce) {
      UnknownIsFresh(kept, s.journal.consumed, nonce);
      DistinctSnoc(kept, tx);
      if |kept| < MAX_REQUESTS {
        assert tx in kept + [tx];
        assert ReadableReceipts(kept + [tx]) && KeepsReplayable(c, s.ledger, s.journal.consumed, kept + [tx]);
        assert Verifies(c, s.journal, s.ledger, tx) && ValidNonce(nonce)
               ==> Enabled(c, s, Reserve(tx, kept + [tx]));
      }
      forall consumed | Enabled(c, s, Reserve(tx, consumed)) ensures |kept| < MAX_REQUESTS {
        DistinctFits(kept + [tx], consumed);
      }
    }
  }

  lemma UnknownIsFresh(kept: seq<Tx>, receipts: seq<Tx>, nonce: string)
    requires !KnownNonce(receipts, nonce) && forall tx :: tx in kept ==> tx in receipts
    ensures FreshNonce(kept, nonce)
  {
    forall tx | tx in kept ensures tx.nonce != nonce {
      var i :| 0 <= i < |receipts| && receipts[i] == tx;
    }
  }

  /** The emergency release is accepted below the floor and after a rollback. */
  lemma EmergencyIsAccepted(c: Config, j: Journal, l: Ledger, dirs: map<string, Release>, nonce: string, m: Release)
    requires c.emergency == Some(m.version) && l.pending.None?
    requires j.active.Some? && j.active.value.release.version != m.version && j.active.value.directory in dirs
    requires ValidNonce(nonce) && !KnownNonce(j.consumed, nonce) && nonce !in dirs && |j.consumed| < MAX_REQUESTS
    ensures Acceptance(c, j, l, dirs, nonce, m)
  {
    RetainedMembers(c, l, j.consumed);
  }

  /** The ledger after its pending transaction finished, at some time. */
  ghost predicate FinishedAs(c: Config, before: Ledger, outcome: Outcome, reason: string, after: Ledger) {
    before.pending.Some? && exists at :: after == Finished(c, before, outcome, reason, at)
  }

  lemma FinishedSettles(c: Config, j: Journal, before: Ledger, outcome: Outcome, reason: string, after: Ledger)
    requires FinishedAs(c, before, outcome, reason, after) && c.historyLimit >= 1
    requires j.pending.Some? && j.pending.value.Id() == before.pending.value.tx
    ensures Settled(j, after) && after.history[|after.history| - 1].outcome == outcome
    ensures Closed(j, after)
            == Journal(if outcome.Healthy? then Some(j.pending.value.release) else j.active, None, j.consumed)
  {
    var at :| after == Finished(c, before, outcome, reason, at);
    LastOfLastN(before.history, Record(before.pending.value.tx, at, outcome, reason), c.historyLimit);
  }

  // What recovery does to the journal, the ledger and the installed package, by the state it finds.

  predicate KeptOpen(j: Journal, l: Ledger, clock: nat, j': Journal, l': Ledger) {
    j' == j && l' == l && l.pending.Some? && clock < l.pending.value.deadline
  }

  ghost predicate Promoted(c: Config, j: Journal, l: Ledger, j': Journal, l': Ledger, host: Version, host': Version) {
    && j.pending.Some? && j' == Journal(Some(j.pending.value.release), None, j.consumed)
    && FinishedAs(c, l, Healthy, "healthy_heartbeat", l') && host' == host
  }

  ghost predicate Reverted(c: Config, j: Journal, l: Ledger, dirs: map<string, Release>,
                           j': Journal, l': Ledger, host': Version) {
    && j' == Journal(j.active, None, j.consumed)
    && FinishedAs(c, l, RolledBack, "healthy_heartbeat_timeout", l')
    && j.active.Some? && j.active.value.directory in dirs
    && host' == dirs[j.active.value.directory].version
  }

  ghost predicate Recovered(c: Config, j: Journal, l: Ledger, dirs: map<string, Release>, host: Version, clock: nat,
                            j': Journal, l': Ledger, dirs': map<string, Release>, host': Version) {
    if BothPending(j, l) then
      || KeptOpen(j, l, clock, j', l')
      || Promoted(c, j, l, j', l', host, host')
      || Reverted(c, j, l, dirs, j', l', host')
    else if j.pending.Some? then
      l.history != [] && j' == Closed(j, l) && l' == l && host' == host
    else if l.pending.Some? then
      j' == j && FinishedAs(c, l, RolledBack, INTERRUPTED, l') && host' == host
    else
      j' == j && l' == l && dirs' == dirs && host' == host
  }

  /** What recovery decides on the state in which it read the mailbox: promotion if the acknowledgement names the
      transaction, was made inside its window and is not from the future, otherwise rollback from the deadline on,
      otherwise nothing. */
  ghost predicate DecidedOn(c: Config, seen: State, j': Journal, l': Ledger, host': Version) {
    && BothPending(seen.journal, seen.ledger)
    && var p := seen.ledger.pending.value;
    if seen.ack.Some? && seen.ack.value.nonce == p.tx.nonce && seen.ack.value.version == p.tx.version
       && p.startedAt <= seen.ack.value.at <= p.deadline && seen.ack.value.at <= seen.clock
    then Promoted(c, seen.journal, seen.ledger, j', l', seen.installed, host')
    else if seen.clock >= p.deadline then Reverted(c, seen.journal, seen.ledger, seen.dirs, j', l', host')
    else j' == seen.journal && l' == seen.ledger && host' == seen.installed
  }

  /** The run passed through `s` between `before` and `after`. */
  ghost predicate Passed(c: Config, origin: State, before: seq<Action>, after: seq<Action>, s: State) {
    exists at: seq<Action> :: before <= at <= after && Recorded(c, origin, at, s)
  }

  lemma PassedNow(c: Config, origin: State, before: seq<Action>, at: seq<Action>, s: State)
    requires before <= at && Recorded(c, origin, at, s)
    ensures Passed(c, origin, before, at, s)
  {
    assert at <= at;
  }

  lemma PassedLater(c: Config, origin: State, before: seq<Action>, then_: seq<Action>, after: seq<Action>, s: State)
    requires Passed(c, origin, before, then_, s) && then_ <= after
    ensures Passed(c, origin, before, after, s)
  {
    var at :| before <= at <= then_ && Recorded(c, origin, at, s);
    assert before <= at <= after;
  }

  lemma PassedWithin(c: Config, origin: State, before: seq<Action>, first: seq<Action>, then_: seq<Action>,
                     after: seq<Action>, s: State)
    requires before <= first && then_ <= after
    ensures Passed(c, origin, first, then_, s) ==> Passed(c, origin, before, after, s)
  {
    if Passed(c, origin, first, then_, s) {
      var at :| first <= at <= then_ && Recorded(c, origin, at, s);
      assert before <= at <= after;
    }
  }

  /** Once the deadline has passed, one successful recovery leaves nothing open. */
  lemma RecoveryCompletes(c: Config, j: Journal, l: Ledger, dirs: map<string, Release>, host: Version, clock: nat,
                          j': Journal, l': Ledger, dirs': map<string, Release>, host': Version)
    requires Recovered(c, j, l, dirs, host, clock, j', l', dirs', host')
    requires l.pending.Some? ==> clock >= l.pending.value.deadline
    ensures j'.pending.None? && l'.pending.None?
  {}

  /** And a second recovery, at whatever later time, changes nothing. */
  lemma RecoveryIsIdempotent(c: Config, j: Journal, l: Ledger, dirs: map<string, Release>, host: Version, clock: nat,
                             j1: Journal, l1: Ledger, dirs1: map<string, Release>, host1: Version, later: nat,
                             j2: Journal, l2: Ledger, dirs2: map<string, Release>, host2: Version)
    requires Recovered(c, j, l, dirs, host, clock, j1, l1, dirs1, host1)
    requires l.pending.Some? ==> clock >= l.pending.value.deadline
    requires Recovered(c, j1, l1, dirs1, host1, later, j2, l2, dirs2, host2)
    ensures (j2, l2, dirs2, host2) == (j1, l1, dirs1, host1)
  {}

  /** What the staged manifest must satisfy besides being genuine. */
  predicate Verifies(c: Config, j: Journal, l: Ledger, tx: Tx) {
    && l.pending.None? && Admissible(c, l, tx)
    && j.active.Some? && tx.version != j.active.value.release.version
    && !RefusedByHistory(c, l, tx.version, tx.sequence)
  }

  /** The two records once a transaction is open: the same identity in both, and nothing else changed. */
  predicate PendingIn(c: Config, tx: Tx, m: Release, j: Journal, l: Ledger, j': Journal, l': Ledger) {
    && j' == j.(pending := j'.pending) && l' == l.(pending := l'.pending)
    && j'.pending.Some? && j'.pending.value.release == Cached(m, tx.nonce) && j'.pending.value.nonce == tx.nonce
    && l'.pending.Some? && l'.pending.value.tx == tx
    && l'.pending.value.deadline == l'.pending.value.startedAt + c.healthTimeout
  }

  /** The two records after a request was accepted. */
  predicate Accepted(c: Config, tx: Tx, m: Release, j: Journal, l: Ledger, j': Journal, l': Ledger) {
    && j'.active == j.active && j'.consumed == Retained(c, l, j.consumed) + [tx]
    && j'.pending.Some? && j'.pending.value.release == Cached(m, tx.nonce) && j'.pending.value.nonce == tx.nonce
    && l'.pending.Some? && l'.pending.value.tx == tx && l' == l.(pending := l'.pending)
    && l'.pending.value.deadline == l'.pending.value.startedAt + c.healthTimeout
  }

  /** The journal up to the start time of its pending entry. */
  predicate SameEntry(a: Journal, b: Journal) {
    a.active == b.active && a.consumed == b.consumed && SamePending(a.pending, b.pending)
  }

  /** The receipt of the active package, if its directory is a request's, is there or has room. */
  predicate ActiveReceiptFits(c: Config, j: Journal, l: Ledger) {
    j.active.Some? && ValidNonce(j.active.value.directory) ==>
      var tx := Tx(j.active.value.directory, j.active.value.release.version, j.active.value.release.sequence);
      tx in j.consumed || (!KnownNonce(j.consumed, tx.nonce) && |Retained(c, l, j.consumed)| < MAX_REQUESTS)
  }

  /** What a seed must satisfy besides being genuine. */
  predicate SeedVerifies(c: Config, l: Ledger, host: Version, m: Release) {
    l.pending.None? && Admissible(c, l, Tx("", m.version, m.sequence)) && m.version == host
  }

  /** A seed raises the floor to its own version and sequence and changes nothing else in the ledger. */
  predicate SeedRecorded(m: Release, l: Ledger, l': Ledger) {
    && l' == l.(floorVersion := l'.floorVersion, floorSequence := l'.floorSequence)
    && l'.floorVersion == (if m.version > l.floorVersion then m.version else l.floorVersion)
    && l'.floorSequence == (if m.sequence > l.floorSequence then m.sequence else l.floorSequence)
  }

  /** Whether the endpoint acknowledges what is posted. */
  predicate Reportable(posted: Option<LedgerPending>, running: Version, clock: nat) {
    && posted.Some? && ValidNonce(posted.value.tx.nonce) && posted.value.tx.version == running
    && posted.value.startedAt <= clock <= posted.value.deadline
  }

  predicate SamePending(a: Option<JournalPending>, b: Option<JournalPending>) {
    if a.None? || b.None? then a == b
    else a.value.release == b.value.release && a.value.nonce == b.value.nonce
  }

  /** `run` leads from `origin` to `s`. Quantified, so that proofs about single steps do not unfold the run. */
  ghost predicate Recorded(c: Config, origin: State, run: seq<Action>, s: State) {
    forall r :: r == run ==> Reaches(c, origin, r, s)
  }

  lemma RecordedInv(c: Config, origin: State, run: seq<Action>, s: State)
    requires Recorded(c, origin, run, s)
    ensures Reaches(c, origin, run, s) && Inv(c, Base(origin), s)
  {
    assert Reaches(c, origin, run, s);
    ReachableInv(c, origin, run, s);
  }

  /** The facts about open transactions that the code relies on without checking them. */
  lemma OpenFacts(c: Config, origin: State, run: seq<Action>, s: State)
    requires Recorded(c, origin, run, s)
    ensures BothPending(s.journal, s.ledger) ==> s.journal.pending.value.Id() == s.ledger.pending.value.tx
    ensures s.journal.pending.Some? ==>
              && s.journal.active.Some? && ValidNonce(s.journal.pending.value.nonce)
              && s.journal.pending.value.Id() in s.journal.consumed
    ensures s.ledger.pending.Some? ==>
              && s.journal.active.Some? && ValidNonce(s.ledger.pending.value.tx.nonce)
              && s.ledger.pending.value.tx in s.journal.consumed
    ensures s.journal.pending.Some? && s.ledger.pending.None? ==> Settled(s.journal, s.ledger)
    ensures ReadableReceipts(s.journal.consumed) && 1 <= c.historyLimit
  {
    RecordedInv(c, origin, run, s);
  }

  lemma Advance(c: Config, origin: State, run: seq<Action>, s: State, a: Action)
    requires Recorded(c, origin, run, s) && Enabled(c, s, a)
    ensures Recorded(c, origin, run + [a], Effect(c, s, a))
    ensures CacheIntact(s) && !CleansReferenced(s, a) ==> CacheIntact(Effect(c, s, a))
  {
    RecordedInv(c, origin, run, s);
    var next, t := Runs.Extend(Step(c), origin, run, s, a);
    if CacheIntact(s) && !CleansReferenced(s, a) {
      CacheStep(c, Base(origin), s, a);
    }
  }

  /** What the endpoint and the clock change between two steps of the supervisor. */
  predicate OnlyEnvironment(s: State, t: State) {
    t == s.(running := t.running, ack := t.ack, posted := t.posted, clock := t.clock)
  }

  lemma JournalWrite(c: Config, s: State, t: State, a: Action)
    requires WritesJournal(a) && Enabled(c, s, a) && OnlyEnvironment(s, t)
    ensures Enabled(c, t, a)
    ensures Effect(c, t, a) == t.(journal := Effect(c, s, a).journal, stage := Effect(c, s, a).stage)
    ensures !CleansReferenced(t, a)
  {}

  lemma LedgerWrite(c: Config, s: State, t: State, a: Action)
    requires WritesLedger(a) && Enabled(c, s, a) && OnlyEnvironment(s, t)
    ensures Enabled(c, t, a)
    ensures var e := Effect(c, s, a);
            Effect(c, t, a) == t.(ledger := e.ledger, stage := e.stage, raised := e.raised, finished := e.finished)
    ensures !CleansReferenced(t, a)
  {}
}
