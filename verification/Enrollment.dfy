/** The certificate state of the agent, in the form of the program: two files, and memory that every call
  updates in place. `Valid` says that whatever happened so far is a run of `EnrollmentProtocol`.
 */
module Enrollment {
  import opened Durable
  import opened Options
  import Runs
  import opened EnrollmentProtocol

  const RETRY_SECONDS := 300

  datatype Outcome = Enrolled | NoService | AuthError | OtherError | Dead

  /** What `ensure` hands back: a client that presents the bundle, one without identity, or an error. */
  datatype Access = Client(identity: Option<Bundle>) | Denied(auth: bool) | Gone

  ghost predicate Recorded(c: Config, origin: State, run: seq<Action>, s: State) {
    forall r :: r == run ==> Exec(c, origin, r) == Some(s)
  }

  lemma Advance(c: Config, origin: State, run: seq<Action>, s: State, a: Action)
    requires Recorded(c, origin, run, s) && Enabled(c, s, a)
    ensures Recorded(c, origin, run + [a], Effect(c, s, a))
  {
    assert Exec(c, origin, run) == Some(s);
    var next, t := Runs.Extend(Step(c), origin, run, s, a);
  }

  /** Only loading changes the configured server. */
  lemma ServerStays(c: Config, s: State, a: Action)
    requires Enabled(c, s, a) && !a.Load?
    ensures Effect(c, s, a).server == s.server
  {}

  class EnrollmentState {
    const c: Config
    // files
    var identityFile: Option<Bundle>
    var pendingFile: Option<Pending>
    // memory, and the configuration
    var server: string
    var bundle: Option<Bundle>
    var pending: Option<Pending>
    var unavailable: bool
    var retryAt: int
    var phase: Phase
    var clock: int
    // the server
    var issued: map<nat, Cert>
    // history
    var generated: map<nat, string>
    var sent: seq<Request>
    var issuances: seq<nat>
    var published: set<nat>
    ghost const origin: State
    ghost var run: seq<Action>
    /** Times that a file, the server, a certificate or the process itself failed. */
    ghost var setbacks: nat

    function Now(): State
      reads this
    {
      State(identityFile, pendingFile, server, bundle, pending, phase, clock,
            issued, generated, sent, issuances, published)
    }

    ghost predicate Valid()
      reads this
    {
      Init(origin) && Recorded(c, origin, run, Now())
    }

    constructor (config: Config, server: string, now: int)
      ensures Valid() && c == config && this.server == server && phase.Idle? && sent == []
    {
      c := config;
      this.server := server;
      identityFile, pendingFile, bundle, pending, phase, clock := None, None, None, None, Idle, now;
      unavailable, retryAt := false, 0;
      issued, generated, sent, issuances, published := map[], map[], [], [], {};
      origin := Start(server, now);
      run, setbacks := [], 0;
    }

    /** The claims about runs, for this object. */
    lemma Safe()
      requires Valid()
      ensures Inv(c, Now())
      ensures forall r :: r in sent ==> r.key in published || (pendingFile.Some? && pendingFile.value.key == r.key)
      ensures identityFile.Some? ==>
                && identityFile.value.cert.key == identityFile.value.key
                && identityFile.value.cert.renewAfter < identityFile.value.cert.notAfter
      ensures forall r :: r in sent ==> r.key in generated && generated[r.key] == r.server
      ensures c.remembers ==> forall i, j :: 0 <= i < j < |issuances| ==> issuances[i] != issuances[j]
    {
      assert Exec(c, origin, run) == Some(Now());
      EnrollmentSafe(c, origin, run);
    }

    /** One step, done as a whole. */
    method Perform(a: Action)
      requires Valid() && Enabled(c, Now(), a) && !a.Load?
      modifies this`identityFile, this`pendingFile, this`bundle, this`pending, this`phase, this`clock
      modifies this`issued, this`generated, this`sent, this`issuances, this`published, this`run
      ensures Valid() && Now() == old(Effect(c, Now(), a)) && run == old(run) + [a]
    {
      Advance(c, origin, run, Now(), a);
      ServerStays(c, Now(), a);
      var t := Effect(c, Now(), a);
      identityFile, pendingFile, bundle, pending, phase, clock :=
        t.identity, t.pendingFile, t.bundle, t.pending, t.phase, t.clock;
      issued, generated, sent, issuances, published := t.issued, t.generated, t.sent, t.issuances, t.published;
      run := run + [a];
    }

    /** A new process, with whatever server is configured by then, reads both files; a request pending for
        another server stops it. */
    method Load(configured: string) returns (ok: bool)
      requires Valid()
      modifies this
      ensures Valid() && server == configured && phase == (if ok then Idle else Down)
      ensures ok <==> (old(pendingFile).Some? ==> old(pendingFile).value.server == configured)
      ensures ok ==> bundle == identityFile && pending == pendingFile && !unavailable && retryAt == 0
      ensures identityFile == old(identityFile) && pendingFile == old(pendingFile) && sent == old(sent)
    {
      ghost var a := Action.Load(configured);
      Advance(c, origin, run, Now(), a);
      server, bundle, pending, phase, run := configured, None, None, Down, run + [a];
      if pendingFile.Some? && pendingFile.value.server != configured {
        return false;
      }
      bundle, pending, phase := identityFile, pendingFile, Idle;
      unavailable, retryAt := false, 0;
      return true;
    }

    /** The server refused the identity: forget it, but not the file. */
    method Recover()
      requires Valid() && phase.Idle?
      modifies this
      ensures Valid() && phase.Idle? && bundle.None? && !unavailable && retryAt == 0
      ensures Now() == old(Now()).(bundle := None)
    {
      Perform(Forget);
      unavailable, retryAt := false, 0;
    }

    /** The pending request, made durable before anything is asked of the server. */
    method PreparePending(key: nat) returns (io: Io)
      requires Valid() && phase.Idle? && key !in generated
      modifies this`identityFile, this`pendingFile, this`bundle, this`pending, this`phase, this`clock
      modifies this`issued, this`generated, this`sent, this`issuances, this`published, this`run, this`setbacks
      ensures Valid() && sent == old(sent) && bundle == old(bundle) && identityFile == old(identityFile)
      ensures setbacks == old(setbacks) + (if io.Done? then 0 else 1)
      ensures io.Done? ==> pending.Some? && phase == (if old(pending).Some? then Retained else Cleared)
      ensures io.Done? && old(pending).None? ==> pendingFile == pending == Some(Pending(key, server))
      ensures old(pending).Some? ==> pending == old(pending)
      ensures !io.Done? ==> phase.Idle?
    {
      if pending.Some? {
        io := Done;
        Perform(Begin);
      } else {
        io := *;
        setbacks := setbacks + if io.Done? then 0 else 1;
        Perform(Generate(key, io));
      }
    }

    /** Time passes while the server is asked. */
    method Wait()
      requires Valid()
      modifies this`clock, this`run
      ensures Valid() && clock >= old(clock)
    {
      var to: int :| clock <= to;
      Advance(c, origin, run, Now(), Tick(to));
      clock, run := to, run + [Tick(to)];
    }

    /** Asks for the certificate of a request that may have been issued before. */
    method RequestRecovery() returns (answer: Answer, auth: bool)
      requires Valid() && phase.Retained? && pending.Some?
      modifies this`identityFile, this`pendingFile, this`bundle, this`pending, this`phase, this`clock
      modifies this`issued, this`generated, this`sent, this`issuances, this`published, this`run, this`setbacks
      ensures Valid() && pending == old(pending) && bundle == old(bundle) && identityFile == old(identityFile)
      ensures sent == old(sent) + [Request(pending.value.key, server)] && issuances == old(issuances)
      ensures phase == match answer case Found(cert) => Holding(cert) case NotFound => Cleared case Nothing => Idle
      ensures setbacks == old(setbacks) + (if answer.Nothing? then 1 else 0)
    {
      Wait();
      answer := *;
      auth := *;
      if !Enabled(c, Now(), AskRecover(answer)) {
        answer := Nothing;
      }
      setbacks := setbacks + if answer.Nothing? then 1 else 0;
      Perform(AskRecover(answer));
    }

    method RequestCertificate() returns (answer: Answer, auth: bool)
      requires Valid() && phase.Cleared? && pending.Some?
      modifies this`identityFile, this`pendingFile, this`bundle, this`pending, this`phase, this`clock
      modifies this`issued, this`generated, this`sent, this`issuances, this`published, this`run, this`setbacks
      ensures Valid() && pending == old(pending) && bundle == old(bundle) && identityFile == old(identityFile)
      ensures sent == old(sent) + [Request(pending.value.key, server)]
      ensures phase == match answer case Found(cert) => Holding(cert) case _ => Idle
      ensures setbacks == old(setbacks) + (if answer.Found? || (answer.NotFound? && bundle.None?) then 0 else 1)
    {
      Wait();
      answer := *;
      auth := *;
      var signed: Option<Cert> := *;
      if !Enabled(c, Now(), AskIssue(signed, answer)) {
        signed, answer := None, Nothing;
      }
      setbacks := setbacks + if answer.Found? || (answer.NotFound? && bundle.None?) then 0 else 1;
      Perform(AskIssue(signed, answer));
    }

    /** Checks the pair, puts the identity file in place, then retires the pending one. */
    method PublishBundle(cert: Cert) returns (r: Outcome)
      requires Valid() && pending.Some? && phase == Holding(cert)
      modifies this
      ensures Valid() && phase.Idle? && server == old(server) && (r.Enrolled? || r.OtherError? || r.Dead?)
      ensures sent == old(sent) && unavailable == old(unavailable) && clock == old(clock)
      ensures setbacks >= old(setbacks) && (r.Enrolled? <==> setbacks == old(setbacks))
      ensures r.Enrolled? ==>
                && bundle == identityFile == Some(Bundle(old(pending.value.key), cert))
                && Acceptable(cert, old(pending.value.key), clock)
                && pending.None? && pendingFile.None? && retryAt == 0
      ensures !r.Enrolled? ==> bundle == old(bundle) && retryAt == old(retryAt)
      ensures identityFile != old(identityFile) ==> identityFile == Some(Bundle(old(pending.value.key), cert))
    {
      var built: bool := *;
      if !Acceptable(cert, pending.value.key, clock) || !built {
        setbacks := setbacks + 1;
        Perform(Discard);
        return OtherError;
      }
      var io: Io := *;
      Perform(Publish(io));
      if io.Done? {
        io := *;
        if pendingFile.None? {
          io := Failed;
        }
        Perform(Remove(io));
      }
      if !io.Done? {
        setbacks := setbacks + 1;
        return if io.Died? then Dead else OtherError;
      }
      retryAt := 0;
      return Enrolled;
    }

    /** One enrollment: recover before reissue, and never ask before the key is durable. `key` is freshly
        generated and used only when no request is pending. */
    method Enroll(key: nat) returns (r: Outcome)
      requires Valid() && phase.Idle? && key !in generated
      modifies this
      ensures Valid() && phase.Idle? && server == old(server)
      ensures r.Enrolled? ==> && pending.None? && pendingFile.None? && retryAt == 0
                              && bundle.Some? && bundle == identityFile && Matches(bundle.value)
                              && ValidAt(bundle.value.cert, clock)
                              && bundle.value.key == (if old(pending).Some? then old(pending.value.key) else key)
      ensures !r.Enrolled? ==> bundle == old(bundle) && retryAt == old(retryAt)
      ensures r.NoService? ==> bundle.None? && unavailable
      ensures unavailable != old(unavailable) ==> r.NoService?
      ensures |sent| <= |old(sent)| + 2 && (r.Enrolled? || r.NoService? ==> |sent| > |old(sent)|)
      ensures setbacks >= old(setbacks) && (r.Enrolled? || r.NoService? <==> setbacks == old(setbacks))
    {
      var io := PreparePending(key);
      if !io.Done? {
        return if io.Died? then Dead else OtherError;
      }
      var answer, auth := NotFound, false;
      if phase.Retained? {
        answer, auth := RequestRecovery();
        if answer.Nothing? {
          return if auth then AuthError else OtherError;
        }
      }
      if answer.NotFound? {
        answer, auth := RequestCertificate();
        if answer.NotFound? && bundle.None? {
          unavailable := true;
          return NoService;
        }
        if !answer.Found? {
          return if auth then AuthError else OtherError;
        }
      }
      r := PublishBundle(answer.cert);
    }

    function Https(): bool
      reads this`server
    {
      "https://" <= server
    }

    /** Whether the identity in use is missing, invalid now or due for renewal. */
    function RenewalDue(): bool
      reads this
    {
      bundle.None? || !ValidAt(bundle.value.cert, clock) || clock >= bundle.value.cert.renewAfter
    }

    function Usable(): bool
      reads this
    {
      bundle.Some? && ValidAt(bundle.value.cert, clock)
    }

    function Presented(): Access
      reads this
    {
      Client(if Usable() then bundle else None)
    }

    /** Keeps the identity current. Nothing is sent while it is not due or while backing off, and a usable
        identity stays in use whatever happens to its renewal. */
    method Ensure(key: nat) returns (access: Access)
      requires Valid() && phase.Idle? && key !in generated
      modifies this
      ensures Valid() && phase.Idle? && server == old(server)
      ensures var due := old(bundle.None? || clock < bundle.value.cert.notBefore || clock > bundle.value.cert.notAfter
                             || clock >= bundle.value.cert.renewAfter);
              && (!Https() || old(unavailable) || !due || old(clock) < old(retryAt) ==> sent == old(sent))
              && (!Https() || old(unavailable) || !due ==> access == old(Presented()))
              && (setbacks == old(setbacks) && Https() && !old(unavailable) && due && old(clock) >= old(retryAt) ==>
                    unavailable || (access.Client? && access.identity == bundle == identityFile && pending.None?
                                    && bundle.Some? && |sent| > |old(sent)|))
      ensures access.Client? ==>
                access.identity == if bundle.Some?
                                      && bundle.value.cert.notBefore <= clock <= bundle.value.cert.notAfter
                                   then bundle else None
      ensures access.Client? && access.identity.Some? ==> Matches(access.identity.value)
      ensures unavailable != old(unavailable) ==> unavailable && bundle.None? && |sent| > |old(sent)|
      ensures old(Usable()) && access.Denied? ==> access.auth
      ensures setbacks >= old(setbacks)
      ensures sent != old(sent) ==>
                old(retryAt) <= old(clock) && (retryAt == old(clock) + RETRY_SECONDS || retryAt == 0)
    {
      Safe();
      if !Https() || unavailable || !RenewalDue() {
        return Presented();
      }
      var usable := Usable();
      if clock < retryAt {
        return if usable then Presented() else Denied(false);
      }
      retryAt := clock + RETRY_SECONDS;
      var r := Enroll(key);
      match r
      case Enrolled => access := Presented();
      case NoService => access := Presented();
      case AuthError =>
        retryAt := 0;
        access := Denied(true);
      case OtherError => access := if usable then Presented() else Denied(false);
      case Dead => access := Gone;
    }
  }
}
