/** Certificate enrollment over two durable files as a state machine, and what every run keeps. */
module EnrollmentProtocol {
  import opened Durable
  import opened Options
  import Runs

  /** `remembers`: every server recalls the certificates it issued and returns them when asked. */
  datatype Config = Config(remembers: bool)

  /** A key pair is a number; a certificate names the pair it was issued for. */
  datatype Cert = Cert(key: nat, notBefore: int, notAfter: int, renewAfter: int)

  datatype Bundle = Bundle(key: nat, cert: Cert)

  datatype Pending = Pending(key: nat, server: string)

  /** How far the enrollment under way has come. Lost in a crash. */
  datatype Phase =
    | Down                 // no process: loading was refused
    | Idle
    | Retained             // an earlier request is pending: ask for its certificate first
    | Cleared              // nothing was issued for the pending request
    | Holding(cert: Cert)  // the server answered with a certificate
    | Published            // the identity file is in place, the pending file still to remove

  datatype Answer = Found(cert: Cert) | NotFound | Nothing

  datatype Request = Request(key: nat, server: string)

  datatype State = State(
    // files
    identity: Option<Bundle>,
    pendingFile: Option<Pending>,
    // memory, and the server the process is configured for
    server: string,
    bundle: Option<Bundle>,
    pending: Option<Pending>,
    phase: Phase,
    clock: int,
    // the servers
    issued: map<nat, Cert>,
    // history
    generated: map<nat, string>,
    sent: seq<Request>,
    issuances: seq<nat>,
    published: set<nat>)

  predicate Matches(b: Bundle) {
    b.cert.key == b.key && b.cert.renewAfter < b.cert.notAfter
  }

  predicate ValidAt(cert: Cert, now: int) {
    cert.notBefore <= now <= cert.notAfter
  }

  predicate Acceptable(cert: Cert, key: nat, now: int) {
    Matches(Bundle(key, cert)) && ValidAt(cert, now)
  }

  datatype Action =
    | Begin
    | Generate(key: nat, io: Io)
    | AskRecover(answer: Answer)
    | AskIssue(signed: Option<Cert>, answer: Answer)
    | Discard
    | Publish(io: Io)
    | Remove(io: Io)
    | Forget
    | Tick(to: int)
    | Load(server: string)

  predicate Enabled(c: Config, s: State, a: Action) {
    match a
    case Begin => s.phase.Idle? && s.pending.Some?
    case Generate(key, io) => s.phase.Idle? && s.pending.None? && key !in s.generated
    case AskRecover(answer) =>
      && s.phase.Retained? && s.pending.Some?
      && (c.remembers ==>
            && (answer.NotFound? ==> s.pending.value.key !in s.issued)
            && (answer.Found? ==> s.pending.value.key in s.issued && answer.cert == s.issued[s.pending.value.key]))
    case AskIssue(signed, answer) =>
      && s.phase.Cleared? && s.pending.Some?
      && (c.remembers ==>
            && (signed.Some? ==> signed.value.key == s.pending.value.key)
            && (answer.Found? ==> signed == Some(answer.cert)))
    case Discard => !s.phase.Idle? && !s.phase.Down?
    case Publish(io) => s.phase.Holding? && s.pending.Some? && Acceptable(s.phase.cert, s.pending.value.key, s.clock)
    case Remove(io) => s.phase.Published? && (s.pendingFile.None? ==> io.Failed?)
    case Forget => s.phase.Idle?
    case Tick(to) => true
    case Load(server) => true
  }

  /** A new process goes on with a pending request only if it was made for the configured server. */
  predicate Loads(s: State, server: string) {
    s.pendingFile.Some? ==> s.pendingFile.value.server == server
  }

  function Effect(c: Config, s: State, a: Action): State
    requires Enabled(c, s, a)
  {
    match a
    case Begin => s.(phase := Retained)
    case Generate(key, io) =>
      var p := Pending(key, s.server);
      (match io
       case Done => s.(generated := s.generated[key := s.server], pendingFile := Some(p),
                       pending := Some(p), phase := Cleared)
       case Failed => s.(generated := s.generated[key := s.server])
       case _ => s.(generated := s.generated[key := s.server], pendingFile := Some(p)))
    case AskRecover(answer) =>
      s.(sent := s.sent + [Request(s.pending.value.key, s.server)],
         phase := match answer case Found(cert) => Holding(cert) case NotFound => Cleared case Nothing => Idle)
    case AskIssue(signed, answer) =>
      var key := s.pending.value.key;
      s.(sent := s.sent + [Request(key, s.server)],
         issued := if signed.Some? then s.issued[key := signed.value] else s.issued,
         issuances := if signed.Some? then s.issuances + [key] else s.issuances,
         phase := match answer case Found(cert) => Holding(cert) case _ => Idle)
    case Discard => s.(phase := Idle)
    case Publish(io) =>
      var b := Bundle(s.pending.value.key, s.phase.cert);
      if io.Failed? then s.(phase := Idle)
      else s.(identity := Some(b), published := s.published + {b.key}, phase := if io.Done? then Published else Idle)
    case Remove(io) =>
      if io.Failed? then s.(phase := Idle)
      else if io.Done? then s.(pendingFile := None, pending := None, bundle := s.identity, phase := Idle)
      else s.(pendingFile := None, phase := Idle)
    case Forget => s.(bundle := None)
    case Tick(to) => s.(clock := to)
    case Load(server) =>
      if Loads(s, server) then s.(server := server, bundle := s.identity, pending := s.pendingFile, phase := Idle)
      else s.(server := server, bundle := None, pending := None, phase := Down)
  }

  function Start(server: string, now: int): State {
    State(None, None, server, None, None, Idle, now, map[], map[], [], [], {})
  }

  predicate Init(s: State) {
    s == Start(s.server, s.clock)
  }

  function Step(c: Config): (State, Action) -> Option<State> {
    (s: State, a: Action) => if Enabled(c, s, a) then Some(Effect(c, s, a)) else None
  }

  function Exec(c: Config, s: State, run: seq<Action>): Option<State> {
    Runs.Exec(Step(c), s, run)
  }

  // ---------------------------------------------------------------- invariants

  /** Every key whose request was ever sent is durable, as the pending key, until its identity is published. */
  ghost predicate KeysDurable(s: State) {
    forall r :: r in s.sent ==>
      r.key in s.published || (s.pendingFile.Some? && s.pendingFile.value.key == r.key)
  }

  /** Requests go only to the server their key was generated for. */
  ghost predicate RequestsAddressed(s: State) {
    forall r :: r in s.sent ==> r.key in s.generated && s.generated[r.key] == r.server
  }

  predicate WasSent(s: State, key: nat) {
    exists i :: 0 <= i < |s.sent| && s.sent[i].key == key
  }

  ghost predicate PendingBacked(c: Config, s: State) {
    && (s.pending.Some? ==>
          && s.pending.value.server == s.server
          && (s.pendingFile == s.pending || (s.pendingFile.None? && s.pending.value.key in s.published)))
    && (s.phase.Down? ==> s.pending.None?)
    && (s.pending.None? && s.pendingFile.Some? && !s.phase.Down? ==> !WasSent(s, s.pendingFile.value.key))
    && (!s.phase.Idle? && !s.phase.Down? ==> s.pending.Some?)
    && (forall p :: s.pending == Some(p) || s.pendingFile == Some(p) ==>
          p.key in s.generated && s.generated[p.key] == p.server)
  }

  ghost predicate IdentityMatches(s: State) {
    && (s.identity.Some? ==> Matches(s.identity.value) && s.identity.value.key in s.published)
    && (s.bundle.Some? ==> Matches(s.bundle.value) && s.bundle.value.key in s.published)
    && (s.phase.Published? ==> s.pending.Some? && s.identity.Some? && s.identity.value.key == s.pending.value.key)
  }

  /** What a remembering server issued. */
  ghost predicate IssuedOnce(c: Config, s: State) {
    && (forall k :: k in s.issued ==> k in s.generated && WasSent(s, k))
    && (forall k :: k in s.issuances ==> k in s.issued)
    && (c.remembers ==>
          && (forall i, j :: 0 <= i < j < |s.issuances| ==> s.issuances[i] != s.issuances[j])
          && (s.phase.Cleared? && s.pending.Some? ==> s.pending.value.key !in s.issued))
  }

  ghost predicate Inv(c: Config, s: State) {
    KeysDurable(s) && RequestsAddressed(s) && PendingBacked(c, s) && IdentityMatches(s) && IssuedOnce(c, s)
  }

  lemma InitInv(c: Config, s: State)
    requires Init(s)
    ensures Inv(c, s)
  {}

  lemma GenerateInv(c: Config, s: State, a: Action)
    requires Inv(c, s) && Enabled(c, s, a) && a.Generate?
    ensures Inv(c, Effect(c, s, a))
  {
    var t := Effect(c, s, a);
    assert forall k :: WasSent(t, k) <==> WasSent(s, k);
    assert forall r :: r in s.sent ==> WasSent(s, r.key) by {
      forall r | r in s.sent ensures WasSent(s, r.key) {
        var i :| 0 <= i < |s.sent| && s.sent[i] == r;
      }
    }
  }

  lemma SendInv(c: Config, s: State, a: Action)
    requires Inv(c, s) && Enabled(c, s, a) && (a.AskRecover? || a.AskIssue?)
    ensures Inv(c, Effect(c, s, a))
  {
    var t := Effect(c, s, a);
    SentGrows(s, t, Request(s.pending.value.key, s.server));
  }

  lemma SentGrows(s: State, t: State, r: Request)
    requires t.sent == s.sent + [r]
    ensures forall k :: WasSent(t, k) <==> WasSent(s, k) || k == r.key
  {
    forall k ensures WasSent(t, k) <==> WasSent(s, k) || k == r.key {
      if WasSent(s, k) {
        var i :| 0 <= i < |s.sent| && s.sent[i].key == k;
        assert t.sent[i].key == k;
      }
      assert t.sent[|s.sent|] == r;
    }
  }

  lemma LoadInv(c: Config, s: State, a: Action)
    requires Inv(c, s) && a.Load?
    ensures Inv(c, Effect(c, s, a))
  {
    var t := Effect(c, s, a);
    assert forall k :: WasSent(t, k) <==> WasSent(s, k);
    assert forall r :: r in s.sent ==> WasSent(s, r.key) by {
      forall r | r in s.sent ensures WasSent(s, r.key) {
        var i :| 0 <= i < |s.sent| && s.sent[i] == r;
      }
    }
  }

  lemma StepInv(c: Config, s: State, a: Action)
    requires Inv(c, s) && Enabled(c, s, a)
    ensures Inv(c, Effect(c, s, a))
  {
    if a.Generate? {
      GenerateInv(c, s, a);
    } else if a.AskRecover? || a.AskIssue? {
      SendInv(c, s, a);
    } else if a.Load? {
      LoadInv(c, s, a);
    } else {
      assert forall k :: WasSent(Effect(c, s, a), k) <==> WasSent(s, k);
    }
  }

  /** In every reachable state, whatever servers the process was configured for one after the other: sent keys
      are durable until published, go only to the server they were generated for, the identity file always
      holds a matching pair, and a remembering server issues each request at most once. */
  lemma {:induction false} EnrollmentSafe(c: Config, s: State, run: seq<Action>)
    requires Init(s) && Exec(c, s, run).Some?
    ensures Inv(c, Exec(c, s, run).value)
  {
    if run == [] {
      InitInv(c, s);
    } else {
      EnrollmentSafe(c, s, run[..|run| - 1]);
      StepInv(c, Exec(c, s, run[..|run| - 1]).value, run[|run| - 1]);
    }
  }

  /** A request that was sent gives up its place in the pending file only once its identity is published. */
  lemma NoRequestAbandoned(c: Config, s: State, a: Action)
    requires Inv(c, s) && Enabled(c, s, a)
    requires s.pendingFile.Some? && WasSent(s, s.pendingFile.value.key)
    ensures Effect(c, s, a).pendingFile != s.pendingFile ==> s.pendingFile.value.key in Effect(c, s, a).published
  {}

  /** Against a remembering server no request is ever issued twice. */
  lemma IssuedAtMostOnce(c: Config, s: State, run: seq<Action>, i: nat, j: nat)
    requires Init(s) && Exec(c, s, run).Some? && c.remembers
    requires i < j < |Exec(c, s, run).value.issuances|
    ensures Exec(c, s, run).value.issuances[i] != Exec(c, s, run).value.issuances[j]
  {
    EnrollmentSafe(c, s, run);
  }

  // ---------------------------------------------------------------- finishing an interrupted enrollment

  /** The pending request was issued, the certificate remembered, but its identity is not published yet. */
  predicate Interrupted(c: Config, s: State, cert: Cert) {
    && c.remembers && s.pendingFile.Some?
    && s.pendingFile.value.key in s.issued && s.issued[s.pendingFile.value.key] == cert
    && (s.phase.Down? || (s.pending == s.pendingFile && s.pending.value.server == s.server
                          && (s.phase.Idle? || s.phase.Retained? || s.phase == Holding(cert))))
  }

  /** The clock never reads a time at which the certificate could be published. */
  ghost predicate NeverAcceptable(s: State, run: seq<Action>, cert: Cert, key: nat) {
    && !Acceptable(cert, key, s.clock)
    && forall i :: 0 <= i < |run| && run[i].Tick? ==> !Acceptable(cert, key, run[i].to)
  }

  /** While the issued certificate is unacceptable (say, it expired while the agent was down), an interrupted
      enrollment never ends: through retries, restarts and changes of the configured server the old pending
      request stays, no new key is made and the identity does not change. */
  lemma {:induction false} ExpiredRequestStays(c: Config, s: State, run: seq<Action>, cert: Cert)
    requires Interrupted(c, s, cert) && Exec(c, s, run).Some?
    requires NeverAcceptable(s, run, cert, s.pendingFile.value.key)
    ensures var t := Exec(c, s, run).value;
            && Interrupted(c, t, cert) && t.pendingFile == s.pendingFile && t.identity == s.identity
            && t.generated == s.generated && !Acceptable(cert, s.pendingFile.value.key, t.clock)
  {
    if run != [] {
      assert run[..|run| - 1] <= run;
      ExpiredRequestStays(c, s, run[..|run| - 1], cert);
    }
  }

  /** An acceptable certificate is recovered and published with the original key; nothing is issued again. */
  lemma RecoveryPublishes(c: Config, s: State, cert: Cert) returns (run: seq<Action>, t: State)
    requires Interrupted(c, s, cert) && s.phase.Idle? && Acceptable(cert, s.pending.value.key, s.clock)
    ensures Exec(c, s, run) == Some(t) && Still(run)
    ensures t.identity == t.bundle == Some(Bundle(s.pending.value.key, cert))
    ensures t.pending.None? && t.pendingFile.None? && t.issuances == s.issuances && t.generated == s.generated
  {
    var ask := AskRecover(Found(cert));
    var s1 := Effect(c, s, Begin);
    var s2 := Effect(c, s1, ask);
    var s3 := Effect(c, s2, Publish(Done));
    t := Effect(c, s3, Remove(Done));
    run := [Begin, ask, Publish(Done), Remove(Done)];
    Runs.Chain(Step(c), [s, s1, s2, s3, t], run);
  }

  predicate Still(run: seq<Action>) {
    forall i :: 0 <= i < |run| ==> !run[i].Tick?
  }

  ghost predicate Finishes(c: Config, s: State, run: seq<Action>) {
    Still(run) && Exec(c, s, run).Some? && Exec(c, s, run).value.pendingFile.None?
  }

  /** An interrupted enrollment can be finished now if and only if its certificate is acceptable now. */
  lemma InterruptedIsFinishable(c: Config, s: State, cert: Cert)
    requires Interrupted(c, s, cert) && s.phase.Idle?
    ensures (exists run :: Finishes(c, s, run)) <==> Acceptable(cert, s.pending.value.key, s.clock)
  {
    if Acceptable(cert, s.pending.value.key, s.clock) {
      var run, t := RecoveryPublishes(c, s, cert);
      assert Finishes(c, s, run);
    } else {
      forall run | Finishes(c, s, run) ensures false {
        ExpiredRequestStays(c, s, run, cert);
      }
    }
  }

  /** From the start: the certificate is issued and acceptable, its answer is lost, and it expires while the
      agent is down. */
  lemma ExpiresWhileDown(c: Config, server: string, now: int) returns (run: seq<Action>, t: State, cert: Cert)
    requires c.remembers
    ensures Init(Start(server, now)) && Exec(c, Start(server, now), run) == Some(t) && Acceptable(cert, 1, now)
    ensures Interrupted(c, t, cert) && t.phase.Idle? && !Acceptable(cert, t.pending.value.key, t.clock)
  {
    cert := Cert(1, now, now + 2, now + 1);
    run := [Generate(1, Done), AskIssue(Some(cert), Nothing), Tick(now + 3), Load(server)];
    var s1 := Effect(c, Start(server, now), run[0]);
    var s2 := Effect(c, s1, run[1]);
    var s3 := Effect(c, s2, run[2]);
    t := Effect(c, s3, run[3]);
    Runs.Chain(Step(c), [Start(server, now), s1, s2, s3, t], run);
  }

  // ---------------------------------------------------------------- a request for another server

  /** With a request pending for one server, no process starts for any other: as long as only others are
      configured, nothing is sent, generated or published and both files stay. */
  lemma {:induction false} ForeignRequestBlocks(c: Config, s: State, run: seq<Action>)
    requires s.phase.Down? && s.pendingFile.Some? && Exec(c, s, run).Some?
    requires forall i :: 0 <= i < |run| && run[i].Load? ==> run[i].server != s.pendingFile.value.server
    ensures var t := Exec(c, s, run).value;
            t == s.(server := t.server, bundle := t.bundle, pending := t.pending, clock := t.clock)
  {
    if run != [] {
      ForeignRequestBlocks(c, s, run[..|run| - 1]);
    }
  }

  /** A state in which the next load for `server` is refused, reached from the start: the request was made for
      the server configured before. */
  lemma ReconfiguredIsRefused(c: Config, first: string, second: string, now: int) returns (run: seq<Action>, t: State)
    requires first != second
    ensures Exec(c, Start(first, now), run) == Some(t) && t.phase.Down? && t.server == second
    ensures t.pendingFile.Some? && t.sent == [Request(t.pendingFile.value.key, first)]
  {
    run := [Generate(1, Done), AskIssue(None, Nothing), Load(second)];
    var s1 := Effect(c, Start(first, now), run[0]);
    var s2 := Effect(c, s1, run[1]);
    t := Effect(c, s2, run[2]);
    Runs.Chain(Step(c), [Start(first, now), s1, s2, t], run);
  }

  // ---------------------------------------------------------------- a removal left in doubt

  /** The pending file is gone but memory still holds the request: its removal was reported as failed. */
  predicate Orphaned(s: State) {
    s.pending.Some? && s.pendingFile.None?
  }

  /** From then on the process can publish, but never finishes: removing the file that is gone fails every
      time, so it goes on with the old identity until it restarts, and the restart adopts the new one. */
  lemma {:induction false} OrphanedUntilRestart(c: Config, s: State, run: seq<Action>)
    requires Orphaned(s) && !s.phase.Down? && Exec(c, s, run).Some?
    requires forall i :: 0 <= i < |run| ==> !run[i].Load?
    ensures var t := Exec(c, s, run).value;
            && Orphaned(t) && !t.phase.Down? && t.pending == s.pending && (t.bundle == s.bundle || t.bundle.None?)
            && forall server :: Effect(c, t, Load(server)).bundle == t.identity
                                && Effect(c, t, Load(server)).pending.None?
  {
    if run != [] {
      OrphanedUntilRestart(c, s, run[..|run| - 1]);
    }
  }

  /** From the start: the first enrollment succeeds but for the removal of its pending file, which takes effect
      and is reported as failed; the process then has no identity although the file holds one. */
  lemma OrphanedFromStart(c: Config, server: string, now: int) returns (run: seq<Action>, t: State)
    ensures Init(Start(server, now)) && Exec(c, Start(server, now), run) == Some(t)
    ensures Orphaned(t) && t.bundle.None? && t.identity.Some?
  {
    var cert := Cert(1, now, now + 2, now + 1);
    run := [Generate(1, Done), AskIssue(Some(cert), Found(cert)), Publish(Done), Remove(Doubtful)];
    var s1 := Effect(c, Start(server, now), run[0]);
    var s2 := Effect(c, s1, run[1]);
    var s3 := Effect(c, s2, run[2]);
    t := Effect(c, s3, run[3]);
    Runs.Chain(Step(c), [Start(server, now), s1, s2, s3, t], run);
  }
}
