/** The inductive invariant that joins the journal and the ledger. */
module UpdateInvariant {
  import opened Options
  import opened UpdateProtocol

  /** Journal and ledger agree. This is the claim; the other predicates make it inductive. */
  ghost predicate Agree(s: State) {
    && (BothPending(s.journal, s.ledger) ==>
          s.journal.pending.value.Id() == s.ledger.pending.value.tx)
    && (s.journal.pending.Some? && s.ledger.pending.None? ==> Settled(s.journal, s.ledger))
    && (s.journal.pending.None? && s.ledger.pending.Some? ==>
          NeverInstalled(s, s.ledger.pending.value.tx) && s.ledger.pending.value.tx in s.journal.consumed)
  }

  ghost predicate NeverInstalled(s: State, tx: Tx) {
    forall i :: 0 <= i < |s.installs| ==> s.installs[i].tx != tx
  }

  /** A transaction that can never be admitted again under this policy. */
  predicate Spent(c: Config, s: State, tx: Tx) {
    tx in s.journal.consumed || !Admissible(c, s.ledger, tx)
  }

  ghost predicate InstallsSpent(c: Config, s: State) {
    && (forall i :: 0 <= i < |s.installs| ==> Spent(c, s, s.installs[i].tx))
    && (forall i, j :: 0 <= i < j < |s.installs| ==> s.installs[i].tx != s.installs[j].tx)
  }

  /** Every forward install was at or above the floor in force, or matched the emergency version. */
  ghost predicate InstallsAdmitted(s: State) {
    forall i :: 0 <= i < |s.installs| ==>
      || s.installs[i].policy == Some(s.installs[i].tx.version)
      || (s.installs[i].tx.version >= s.installs[i].floorVersion
          && s.installs[i].tx.sequence >= s.installs[i].floorSequence)
  }

  ghost predicate Receipts(c: Config, s: State) {
    && ReadableReceipts(s.journal.consumed)
    && (s.journal.pending.Some? ==>
          && s.journal.pending.value.Id() in s.journal.consumed
          && s.journal.pending.value.release.directory == s.journal.pending.value.nonce
          && ValidNonce(s.journal.pending.value.nonce)
          && s.journal.active.Some?
          && s.journal.pending.value.release.release.version != s.journal.active.value.release.version)
    && (s.ledger.pending.Some? ==>
          && s.ledger.pending.value.tx in s.journal.consumed
          && ValidNonce(s.ledger.pending.value.tx.nonce)
          && Admissible(c, s.ledger, s.ledger.pending.value.tx)
          && s.journal.active.Some?
          && s.ledger.pending.value.tx.version != s.journal.active.value.release.version)
    && |s.ledger.history| <= c.historyLimit
  }

  predicate NeverFinished(s: State, tx: Tx) {
    forall i :: 0 <= i < |s.finished| ==> s.finished[i].tx != tx
  }

  /** The ledger's history is the window of the last `historyLimit` records. A transaction is finished at
      most once, one interrupted before its install never ran an installer, and every forward install is
      accounted for: it is the pending transaction or has its record. */
  ghost predicate Finishes(c: Config, s: State) {
    && s.ledger.history == LastN(s.finished, c.historyLimit)
    && (forall i :: 0 <= i < |s.finished| ==> Spent(c, s, s.finished[i].tx))
    && (forall i, j :: 0 <= i < j < |s.finished| ==> s.finished[i].tx != s.finished[j].tx)
    && (s.ledger.pending.Some? ==> NeverFinished(s, s.ledger.pending.value.tx))
    && (forall i :: 0 <= i < |s.finished| && s.finished[i].reason == INTERRUPTED && s.finished[i].outcome.RolledBack?
          ==> NeverInstalled(s, s.finished[i].tx))
    && (forall i :: 0 <= i < |s.installs| ==> Accounted(s, s.installs[i].tx))
  }

  ghost predicate Accounted(s: State, tx: Tx) {
    || (s.ledger.pending.Some? && s.ledger.pending.value.tx == tx)
    || exists k :: 0 <= k < |s.finished| && s.finished[k].tx == tx
  }

  /** What the running process may rely on at each stage. */
  ghost predicate StageFacts(c: Config, s: State) {
    match s.stage
    case Idle => true
    case Reserved(tx) =>
      && s.journal.pending.None? && s.ledger.pending.None? && tx in s.journal.consumed
      && ValidNonce(tx.nonce) && Admissible(c, s.ledger, tx) && NeverInstalled(s, tx) && NeverFinished(s, tx)
      && s.journal.active.Some? && tx.version != s.journal.active.value.release.version
    case Committed(tx) =>
      s.journal.pending.None? && s.ledger.pending.Some? && s.ledger.pending.value.tx == tx
    case Cleared(tx) =>
      s.journal.pending.None? && s.ledger.pending.Some? && s.ledger.pending.value.tx == tx
    case Opened(tx) =>
      BothPending(s.journal, s.ledger) && s.ledger.pending.value.tx == tx && NeverInstalled(s, tx)
    case Ran(tx) => BothPending(s.journal, s.ledger) && s.ledger.pending.value.tx == tx
    case Vouched(tx) => BothPending(s.journal, s.ledger) && s.ledger.pending.value.tx == tx
    case Reinstalled => BothPending(s.journal, s.ledger)
    case Restored => BothPending(s.journal, s.ledger)
  }

  function MaxVersion(base: Version, raised: seq<Mark>): Version {
    if raised == [] then base
    else
      var rest := MaxVersion(base, raised[..|raised| - 1]);
      if raised[|raised| - 1].version > rest then raised[|raised| - 1].version else rest
  }

  function MaxSequence(base: nat, raised: seq<Mark>): nat {
    if raised == [] then base
    else
      var rest := MaxSequence(base, raised[..|raised| - 1]);
      if raised[|raised| - 1].sequence > rest then raised[|raised| - 1].sequence else rest
  }

  /** The floor is the maximum over the initial floor and everything recorded as raising it. */
  ghost predicate FloorIsMax(base: Mark, s: State) {
    && s.ledger.floorVersion == MaxVersion(base.version, s.raised)
    && s.ledger.floorSequence == MaxSequence(base.sequence, s.raised)
  }

  ghost predicate Inv(c: Config, base: Mark, s: State) {
    && c.Valid()
    && Agree(s)
    && Receipts(c, s)
    && StageFacts(c, s)
    && InstallsSpent(c, s)
    && InstallsAdmitted(s)
    && Finishes(c, s)
    && FloorIsMax(base, s)
  }

  function Base(s: State): Mark { Mark(s.ledger.floorVersion, s.ledger.floorSequence) }

  lemma InitInv(c: Config, s: State)
    requires Init(c, s)
    ensures Inv(c, Base(s), s)
  {}

  lemma SpentKept(c: Config, s: State, t: State)
    requires forall tx :: tx in s.journal.consumed ==> Spent(c, t, tx)
    requires t.ledger.floorVersion >= s.ledger.floorVersion && t.ledger.floorSequence >= s.ledger.floorSequence
    requires t.installs == s.installs && InstallsSpent(c, s)
    ensures InstallsSpent(c, t)
  {
    forall i | 0 <= i < |t.installs| ensures Spent(c, t, t.installs[i].tx) {
      assert Spent(c, s, s.installs[i].tx);
    }
  }

  /** A transaction about to be reserved has never been installed: its receipt would still be there,
      or the floor would refuse it. */
  lemma FreshWhenReserved(c: Config, s: State, tx: Tx)
    requires InstallsSpent(c, s) && Finishes(c, s) && tx !in s.journal.consumed && Admissible(c, s.ledger, tx)
    ensures NeverInstalled(s, tx) && NeverFinished(s, tx)
  {
    forall i | 0 <= i < |s.installs| ensures s.installs[i].tx != tx {
      assert Spent(c, s, s.installs[i].tx);
    }
    forall i | 0 <= i < |s.finished| ensures s.finished[i].tx != tx {
      assert Spent(c, s, s.finished[i].tx);
    }
  }

  lemma {:induction false} StepFloor(c: Config, base: Mark, s: State, a: Action)
    requires Inv(c, base, s) && Enabled(c, s, a)
    ensures FloorIsMax(base, Effect(c, s, a))
    ensures Effect(c, s, a).ledger.floorVersion >= s.ledger.floorVersion
    ensures Effect(c, s, a).ledger.floorSequence >= s.ledger.floorSequence
  {
    var t := Effect(c, s, a);
    if t.raised != s.raised {
      assert t.raised[..|t.raised| - 1] == s.raised;
    }
  }

  lemma StepInstalls(c: Config, base: Mark, s: State, a: Action)
    requires Inv(c, base, s) && Enabled(c, s, a)
    ensures InstallsSpent(c, Effect(c, s, a)) && InstallsAdmitted(Effect(c, s, a))
  {
    var t := Effect(c, s, a);
    StepFloor(c, base, s, a);
    if a.Install? {
      assert s.ledger.pending.value.tx in s.journal.consumed;
    } else {
      assert t.journal.consumed == s.journal.consumed || a.Reserve? || a.Recall?;
      SpentKept(c, s, t);
    }
  }

  lemma LastNSnoc<T>(s: seq<T>, x: T, n: nat)
    requires n >= 1
    ensures LastN(LastN(s, n) + [x], n) == LastN(s + [x], n)
  {}

  lemma StepAccounted(c: Config, base: Mark, s: State, a: Action, i: nat)
    requires Inv(c, base, s) && Enabled(c, s, a) && i < |Effect(c, s, a).installs|
    ensures Accounted(Effect(c, s, a), Effect(c, s, a).installs[i].tx)
  {
    var t := Effect(c, s, a);
    var tx := t.installs[i].tx;
    if i == |s.installs| {
      assert a.Install?;
    } else {
      assert Accounted(s, tx);
      if s.ledger.pending.Some? && s.ledger.pending.value.tx == tx {
        if a.Settle? {
          assert t.finished[|s.finished|].tx == tx;
        }
      } else {
        var k :| 0 <= k < |s.finished| && s.finished[k].tx == tx;
        assert t.finished[k].tx == tx;
      }
    }
  }

  lemma StepFinishedSpent(c: Config, base: Mark, s: State, a: Action, i: nat)
    requires Inv(c, base, s) && Enabled(c, s, a) && i < |Effect(c, s, a).finished|
    ensures Spent(c, Effect(c, s, a), Effect(c, s, a).finished[i].tx)
  {
    StepFloor(c, base, s, a);
    if i < |s.finished| {
      assert Spent(c, s, s.finished[i].tx);
    }
  }

  lemma StepFinishes(c: Config, base: Mark, s: State, a: Action)
    requires Inv(c, base, s) && Enabled(c, s, a)
    ensures Finishes(c, Effect(c, s, a))
  {
    var t := Effect(c, s, a);
    forall i | 0 <= i < |t.finished| ensures Spent(c, t, t.finished[i].tx) {
      StepFinishedSpent(c, base, s, a, i);
    }
    forall i | 0 <= i < |t.installs| ensures Accounted(t, t.installs[i].tx) {
      StepAccounted(c, base, s, a, i);
    }
    if a.Settle? {
      LastNSnoc(s.finished, t.finished[|s.finished|], c.historyLimit);
    }
  }

  lemma StepAgree(c: Config, base: Mark, s: State, a: Action)
    requires Inv(c, base, s) && Enabled(c, s, a)
    ensures Agree(Effect(c, s, a))
  {
    if WritesJournal(a) {
      JournalStepAgrees(c, base, s, a);
    } else if WritesLedger(a) {
      LedgerStepAgrees(c, base, s, a);
    }
  }

  lemma JournalStepAgrees(c: Config, base: Mark, s: State, a: Action)
    requires Inv(c, base, s) && Enabled(c, s, a) && WritesJournal(a)
    ensures Agree(Effect(c, s, a))
  {}

  lemma LedgerStepAgrees(c: Config, base: Mark, s: State, a: Action)
    requires Inv(c, base, s) && Enabled(c, s, a) && WritesLedger(a)
    ensures Agree(Effect(c, s, a))
  {}

  lemma StepReceipts(c: Config, base: Mark, s: State, a: Action)
    requires Inv(c, base, s) && Enabled(c, s, a)
    ensures Receipts(c, Effect(c, s, a))
  {
    if WritesJournal(a) {
      JournalStepReceipts(c, base, s, a);
    } else if WritesLedger(a) {
      LedgerStepReceipts(c, base, s, a);
    }
  }

  lemma JournalStepReceipts(c: Config, base: Mark, s: State, a: Action)
    requires Inv(c, base, s) && Enabled(c, s, a) && WritesJournal(a)
    ensures Receipts(c, Effect(c, s, a))
  {}

  lemma LedgerStepReceipts(c: Config, base: Mark, s: State, a: Action)
    requires Inv(c, base, s) && Enabled(c, s, a) && WritesLedger(a)
    ensures Receipts(c, Effect(c, s, a))
  {}

  lemma StepStage(c: Config, base: Mark, s: State, a: Action)
    requires Inv(c, base, s) && Enabled(c, s, a)
    ensures StageFacts(c, Effect(c, s, a))
  {
    if a.Reserve? {
      FreshWhenReserved(c, s, a.tx);
    }
  }

  /** Every action, crash or environment move included, keeps the invariant. */
  lemma StepInv(c: Config, base: Mark, s: State, a: Action)
    requires Inv(c, base, s) && Enabled(c, s, a)
    ensures Inv(c, base, Effect(c, s, a))
  {
    StepFloor(c, base, s, a);
    StepInstalls(c, base, s, a);
    StepFinishes(c, base, s, a);
    StepAgree(c, base, s, a);
    StepReceipts(c, base, s, a);
    StepStage(c, base, s, a);
  }

  lemma {:induction false} RunKeepsInv(c: Config, base: Mark, s: State, run: seq<Action>)
    requires Inv(c, base, s) && Exec(c, s, run).Some?
    ensures Inv(c, base, Exec(c, s, run).value)
  {
    if run != [] {
      var init := run[..|run| - 1];
      RunKeepsInv(c, base, s, init);
      StepInv(c, base, Exec(c, s, init).value, run[|run| - 1]);
    }
  }
}
