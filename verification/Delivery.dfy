/** The delivery client, in the form of the program: an enqueuing and a draining task over one spool
  directory, one state file and two remembered values. At every await the other task may run any number
  of its own steps. `Valid` says that whatever happened so far is a run of `DeliveryProtocol`, so every
  claim about runs holds here.
 */
module Delivery {
  import opened Durable
  import opened Options
  import Runs
  import opened SpoolLimit
  import opened DeliveryProtocol
  import opened DeliveryClaims

  const MAX_ATTEMPTS_PER_ENTRY := 6

  datatype EnqueueResult = Queued | Unchanged | Refused | EnqueueDead

  datatype DrainResult = Drained | DrainedWithRejects | Aborted | DrainDead

  /** What a post to the server may come back with. */
  datatype Response =
    | Accepted | Auth | Forbidden | Conflict | Validation | PayloadTooLarge | Transient | RateLimited | Fatal

  datatype Submission = Submitted | Rejected | Blocking | SubmitDead

  predicate Permanent(r: Response) { r.Conflict? || r.Validation? || r.PayloadTooLarge? }

  predicate Retryable(r: Response) { r.Transient? || r.RateLimited? }

  /** Responses that one submission may see: it goes on only past retryable ones and at most one expired
      token, and never for longer than its attempts allow. */
  predicate Patient(responses: seq<Response>) {
    && |responses| <= MAX_ATTEMPTS_PER_ENTRY + 1
    && (forall i :: 0 <= i < |responses| - 1 ==> Retryable(responses[i]) || responses[i].Auth?)
    && (forall i, j :: 0 <= i < j < |responses| - 1 ==> !(responses[i].Auth? && responses[j].Auth?))
  }

  /** Answers after which a submission is given up: a refusal that no retry changes, a second expired token, or
      a passing failure when every attempt is used up. */
  predicate GivenUp(responses: seq<Response>) {
    responses != [] &&
    var last := responses[|responses| - 1];
    var renewed := exists i :: 0 <= i < |responses| - 1 && responses[i].Auth?;
    || last.Forbidden? || last.Fatal?
    || (last.Auth? && renewed)
    || ((last.Transient? || last.RateLimited?)
        && |responses| == MAX_ATTEMPTS_PER_ENTRY + (if renewed then 1 else 0))
  }

  /** An entry a drain took up and the answers it got; none when its file was gone. */
  datatype Handled = Handled(item: Item, responses: seq<Response>) {
    predicate Sent() { responses != [] && responses[|responses| - 1].Accepted? }

    predicate SetAside() {
      responses != [] &&
      var last := responses[|responses| - 1];
      last.Conflict? || last.Validation? || last.PayloadTooLarge?
    }
  }

  function AllResponses(taken: seq<Handled>): seq<Response> {
    if taken == [] then [] else AllResponses(taken[..|taken| - 1]) + taken[|taken| - 1].responses
  }

  /** The digests of the entries that were accepted, in order. */
  function SentDigests(taken: seq<Handled>): seq<Digest> {
    if taken == [] then []
    else
      var last := taken[|taken| - 1];
      SentDigests(taken[..|taken| - 1]) + (if last.Sent() then [last.item.digest] else [])
  }

  predicate AreAnswers(answers: nat -> Response, from: nat, responses: seq<Response>) {
    forall k :: 0 <= k < |responses| ==> responses[k] == answers(from + k)
  }

  /** What a drain that nothing interrupts does with the entries pending when it begins. */
  ghost predicate DrainOutcome(items: seq<Item>, taken: seq<Handled>, r: DrainResult) {
    && |taken| <= |items|
    && (forall k :: 0 <= k < |taken| ==> taken[k].item == items[k])
    && (forall k :: 0 <= k < |taken| - 1 ==> taken[k].Sent() || taken[k].SetAside())
    && (r.Aborted? <==> taken != [] && !taken[|taken| - 1].Sent() && !taken[|taken| - 1].SetAside())
    && (!r.Aborted? ==> |taken| == |items|)
    && (r.DrainedWithRejects? <==> !r.Aborted? && exists k :: 0 <= k < |taken| && taken[k].SetAside())
    && (forall k :: 0 <= k < |taken| && taken[k].responses != [] && !taken[k].Sent() && !taken[k].SetAside() ==>
          GivenUp(taken[k].responses))
  }

  datatype Exchange = Answer(response: Response) | NoToken | Cut

  /** Responses seen when a further attempt starts. */
  ghost predicate Ongoing(responses: seq<Response>, attempt: nat, refreshed: bool) {
    && |responses| == attempt + (if refreshed then 1 else 0)
    && (forall i :: 0 <= i < |responses| ==> Retryable(responses[i]) || (refreshed && responses[i].Auth?))
    && (forall i, j :: 0 <= i < j < |responses| ==> !(responses[i].Auth? && responses[j].Auth?))
    && (refreshed ==> exists i :: 0 <= i < |responses| && responses[i].Auth?)
  }

  /** What one attempt may add: an answer, or an expired token, once, and the answer after its renewal. */
  predicate OneAttempt(got: seq<Response>, refreshed: bool, refreshed': bool) {
    if |got| == 2 then got[0].Auth? && !refreshed && refreshed'
    else |got| == 1 && refreshed' == refreshed && (got[0].Auth? ==> refreshed)
  }

  /** The answers of one attempt more, and when they end the submission. */
  lemma AttemptEnds(responses: seq<Response>, attempt: nat, refreshed: bool, got: seq<Response>, refreshed': bool)
    requires Ongoing(responses, attempt, refreshed) && attempt < MAX_ATTEMPTS_PER_ENTRY
    requires OneAttempt(got, refreshed, refreshed')
    ensures var last, all := got[|got| - 1], responses + got;
            && Patient(all)
            && (Retryable(last) ==> Ongoing(all, attempt + 1, refreshed'))
            && (!last.Accepted? && !Permanent(last) && (!Retryable(last) || attempt + 1 == MAX_ATTEMPTS_PER_ENTRY)
                <==> GivenUp(all))
  {
    var all, n := responses + got, |responses|;
    if |got| == 2 {
      assert all[n].Auth? && all[n] == got[0] && all[n + 1] == got[1];
    } else {
      assert all[n] == got[0];
      if refreshed {
        var i :| 0 <= i < n && responses[i].Auth?;
        assert all[i].Auth?;
      }
    }
  }

  /** An attempt that is cut off. */
  lemma AttemptCut(responses: seq<Response>, attempt: nat, refreshed: bool, got: seq<Response>)
    requires Ongoing(responses, attempt, refreshed) && attempt < MAX_ATTEMPTS_PER_ENTRY
    requires got == [] || (got == [Auth] && !refreshed)
    ensures Patient(responses + got)
    ensures got != [] ==> (responses + got)[|responses + got| - 1].Auth?
    ensures Last(responses + got) != Some(Accepted)
  {
    assert got == [] ==> responses + got == responses;
  }

  lemma MoreAnswers(answers: nat -> Response, from: nat, first: seq<Response>, second: seq<Response>)
    requires AreAnswers(answers, from, first) && AreAnswers(answers, from + |first|, second)
    ensures AreAnswers(answers, from, first + second) && |first + second| == |first| + |second|
  {}

  function Last(responses: seq<Response>): Option<Response> {
    if responses == [] then None else Some(responses[|responses| - 1])
  }

  ghost predicate Recorded(c: Config, origin: State, run: seq<Action>, s: State) {
    forall r :: r == run ==> Exec(c, origin, r) == Some(s)
  }

  lemma Advance(c: Config, origin: State, run: seq<Action>, s: State, a: Action)
    requires Recorded(c, origin, run, s) && Enabled(c, s, a)
    ensures Recorded(c, origin, run + [a], Effect(c, s, a))
    ensures Settled(run) && !(a.Write? && a.io.Doubtful?) ==> Settled(run + [a])
  {
    assert Exec(c, origin, run) == Some(s);
    var next, t := Runs.Extend(Step(c), origin, run, s, a);
  }

  lemma RecordedSpool(c: Config, origin: State, run: seq<Action>, s: State)
    requires Init(origin) && Recorded(c, origin, run, s)
    ensures SpoolBase(s) && (Settled(run) ==> SpoolInv(s))
  {
    assert Exec(c, origin, run) == Some(s);
    SpoolAlwaysHolds(c, origin, run);
    if Settled(run) {
      SpoolHolds(c, origin, run);
    }
  }

  /** An entry in hand is pending or has been accounted for. */
  lemma InHandIsAccounted(s: State)
    requires SpoolBase(s) && s.draining.Posting?
    ensures Present(s.pending, s.draining.item.id) || s.draining.item.id in s.fates
  {
    var items := [s.draining.item] + s.draining.rest;
    var r: nat :| r <= Gone(s) && From(s.log, r, items);
    assert s.log[r] == items[0];
    if r == Gone(s) {
      assert s.pending[0] == s.log[r];
    }
  }

  predicate Grows(before: map<string, Fate>, after: map<string, Fate>) {
    before.Keys <= after.Keys
  }

  predicate EnqueueStep(a: Action) { a.Consider? || a.Skip? || a.Write? }
  predicate DrainStep(a: Action) {
    a.List? || a.Open? || a.Ack? || a.Persist? || a.Remember? || a.Reject? || a.Quit? || a.Clear?
  }

  lemma StepFrames(c: Config, s: State, a: Action)
    requires Enabled(c, s, a)
    ensures Grows(s.fates, Effect(c, s, a).fates)
    ensures EnqueueStep(a) && !(a.Write? && a.io.Died?) ==>
              && Effect(c, s, a).draining == s.draining
              && Effect(c, s, a).stored == s.stored && Effect(c, s, a).accepted == s.accepted
              && Effect(c, s, a).acked == s.acked
    ensures DrainStep(a) ==>
              && Effect(c, s, a).enqueuing == s.enqueuing
              && Effect(c, s, a).log == s.log && Effect(c, s, a).offered == s.offered
              && (Effect(c, s, a).queued == s.queued || Effect(c, s, a).queued.None?)
  {
    if a.Write? && (a.io.Done? || a.io.Died?) {
      MarkCovers(s.fates, (s.pending + [Item(a.id, s.enqueuing.digest, a.size)])[..a.evictions], Evicted);
    }
  }

  /** After the shortest prefix is gone, what is left meets the limits. */
  lemma LeftMeetsLimits(limit: nat, items: seq<Item>)
    ensures var left := items[Shortest(limit, Sizes(items))..];
            |left| <= 1 || Meets(limit, Sizes(left))
  {
    var k := Shortest(limit, Sizes(items));
    ShortestIsLeast(limit, Sizes(items));
    assert Sizes(items)[k..] == Sizes(items[k..]);
  }

  class DeliveryClient {
    const c: Config
    /** The server: its answer to each post of the draining task, and how many it has given. */
    const answers: nat -> Response
    var posts: nat
    // on disk
    var pending: seq<Item>
    var stored: Option<AcceptedState>
    // memory
    var queued: Option<Digest>
    var accepted: Option<AcceptedState>
    var clock: nat
    // where the two tasks are
    var enqueuing: Enqueuing
    var draining: Draining
    // history
    var log: seq<Item>
    var fates: map<string, Fate>
    var offered: Option<Digest>
    var acked: seq<Digest>
    ghost const origin: State
    ghost var run: seq<Action>
    /** Spool writes that were left in doubt. */
    ghost var doubts: nat
    /** Times that an operation of this object's own calls failed or its process was cut off. */
    ghost var setbacks: nat

    function Now(): State
      reads this
    {
      State(pending, stored, queued, accepted, enqueuing, draining, clock, log, fates, offered, acked)
    }

    ghost predicate Valid()
      reads this
    {
      && Init(origin) && Recorded(c, origin, run, Now())
      && (doubts == 0 ==> Settled(run))
    }

    constructor (config: Config, answers: nat -> Response, now: nat)
      ensures Valid() && c == config && this.answers == answers && posts == 0 && doubts == 0 && run == []
      ensures pending == [] && enqueuing.Resting? && draining.Idle?
    {
      c, this.answers, posts := config, answers, 0;
      pending, stored, queued, accepted, clock := [], None, None, None, now;
      enqueuing, draining, log, fates, offered, acked := Resting, Idle, [], map[], None, [];
      origin := State([], None, None, None, Resting, Idle, now, [], map[], None, []);
      run, doubts, setbacks := [], 0, 0;
    }

    /** The claims about runs, for this object. */
    lemma Safe()
      requires Valid()
      ensures SpoolBase(Now())
      ensures doubts == 0 ==> SpoolInv(Now()) && (pending != [] ==> queued == Newest(pending))
      ensures Undisturbed(c, origin, run) ==> Converged(Now())
    {
      RecordedSpool(c, origin, run, Now());
      assert Exec(c, origin, run) == Some(Now());
      if Undisturbed(c, origin, run) {
        DeliveryConverges(c, origin, run);
      }
    }

    method Adopt(t: State)
      modifies this`pending, this`stored, this`queued, this`accepted, this`clock, this`enqueuing, this`draining
      modifies this`log, this`fates, this`offered, this`acked
      ensures Now() == t
    {
      pending, stored, queued, accepted, clock := t.pending, t.stored, t.queued, t.accepted, t.clock;
      enqueuing, draining := t.enqueuing, t.draining;
      log, fates, offered, acked := t.log, t.fates, t.offered, t.acked;
    }

    /** One whole step of the other task or of the clock. */
    method Perform(a: Action)
      requires Valid() && Enabled(c, Now(), a)
      modifies this
      ensures Valid() && Now() == old(Effect(c, Now(), a)) && run == old(run) + [a] && setbacks == old(setbacks)
      ensures posts == old(posts)
      ensures doubts == old(doubts) + (if a.Write? && a.io.Doubtful? then 1 else 0)
    {
      Advance(c, origin, run, Now(), a);
      Adopt(Effect(c, Now(), a));
      run := run + [a];
      if a.Write? && a.io.Doubtful? {
        doubts := doubts + 1;
      }
    }

    /** What was done since `s` amounts to the step `a`. */
    ghost method Record(s: State, a: Action)
      requires Init(origin) && Recorded(c, origin, run, s) && (doubts == 0 ==> Settled(run))
      requires Enabled(c, s, a) && !(a.Write? && a.io.Doubtful?) && Now() == Effect(c, s, a)
      modifies this`run
      ensures Valid() && run == old(run) + [a]
    {
      Advance(c, origin, run, s, a);
      run := run + [a];
    }

    /** The draining task at an await of the enqueuing one. */
    method DrainMeanwhile()
      requires Valid()
      modifies this
      ensures Valid() && enqueuing == old(enqueuing) && log == old(log) && offered == old(offered)
      ensures doubts == old(doubts) && setbacks == old(setbacks) && !draining.Removed?
      ensures queued == old(queued) || queued.None?
    {
      var steps: nat :| 0 <= steps;
      for k := 0 to steps
        invariant Valid() && enqueuing == old(enqueuing) && log == old(log) && offered == old(offered)
        invariant doubts == old(doubts) && setbacks == old(setbacks)
        invariant queued == old(queued) || queued.None?
      {
        var a: Action := *;
        if (DrainStep(a) || a.Tick?) && Enabled(c, Now(), a) {
          StepFrames(c, Now(), a);
          Perform(a);
        }
      }
      if draining.Removed? {
        Perform(Persist(Done));
      }
    }

    /** The enqueuing task at an await of the draining one. */
    method EnqueueMeanwhile()
      requires Valid()
      modifies this
      ensures Valid() && draining == old(draining) && Grows(old(fates), fates)
      ensures doubts >= old(doubts) && setbacks == old(setbacks)
      ensures stored == old(stored) && accepted == old(accepted) && acked == old(acked) && posts == old(posts)
    {
      var steps: nat :| 0 <= steps;
      for k := 0 to steps
        invariant Valid() && draining == old(draining) && Grows(old(fates), fates) && doubts >= old(doubts)
        invariant setbacks == old(setbacks) && stored == old(stored) && accepted == old(accepted)
        invariant acked == old(acked) && posts == old(posts)
      {
        var a: Action := *;
        if ((EnqueueStep(a) && !(a.Write? && a.io.Died?)) || a.Tick?) && Enabled(c, Now(), a) {
          StepFrames(c, Now(), a);
          Perform(a);
        }
      }
    }

    // -------------------------------------------------------------- start

    /** The digest of the newest pending entry. */
    method NewestPendingDigest() returns (digest: Option<Digest>)
      ensures digest == Newest(pending)
    {
      digest := None;
      if pending != [] {
        digest := Some(pending[|pending| - 1].digest);
      }
    }

    /** What a new process remembers comes from disk. */
    method LoadMemory()
      modifies this`stored, this`accepted, this`queued, this`enqueuing, this`draining
      ensures Now() == Restarted(old(Now()))
    {
      if stored.Some? && stored.value.at == 0 {
        stored := None;
      }
      accepted := stored;
      queued := NewestPendingDigest();
      enqueuing, draining := Resting, Idle;
    }

    /** A new process opens the client. */
    method Start()
      requires Valid()
      modifies this
      ensures Valid() && Now() == Restarted(old(Now())) && doubts == old(doubts) && setbacks == old(setbacks)
      ensures posts == old(posts)
    {
      Advance(c, origin, run, Now(), Restart);
      LoadMemory();
      run := run + [Restart];
    }

    // -------------------------------------------------------------- the enqueuing task

    method DueForSubmission(digest: Digest) returns (due: bool)
      ensures due == Due(c, accepted, digest, clock)
      ensures due <==>
                || accepted.None? || accepted.value.digest != digest
                || clock < accepted.value.at || clock >= accepted.value.at + c.refresh
    {
      if accepted.None? {
        return true;
      }
      var last := accepted.value;
      var refresh := last.at > clock || SatSub(clock, last.at) >= c.refresh;
      return last.digest != digest || refresh;
    }

    /** Evicts oldest entries until both limits hold, one file at a time; stops at the first error. */
    method EnforceLimit() returns (evicted: seq<Item>, io: Io)
      modifies this`pending, this`fates, this`setbacks
      ensures |evicted| <= |old(pending)| && evicted == old(pending)[..|evicted|]
      ensures pending == old(pending)[|evicted|..]
      ensures fates == Mark(old(fates), evicted, Evicted)
      ensures |evicted| <= Shortest(c.maxEntries, Sizes(old(pending)))
      ensures setbacks >= old(setbacks)
      ensures setbacks == old(setbacks) ==> io.Done? && |evicted| == Shortest(c.maxEntries, Sizes(old(pending)))
      ensures setbacks > old(setbacks) ==> !io.Done? || Total(Sizes(old(pending))) > U64_MAX
    {
      var entries := pending;
      var sizes := Sizes(entries);
      var total: nat := SumSizes(sizes);
      var k := 0;
      io := Done;
      DroppedIsShortest(c.maxEntries, total, sizes);
      assert sizes[0..] == sizes && entries[0..] == entries;
      while io.Done? && |entries| - k > 1 && !(|entries| - k <= AtLeastOne(c.maxEntries) && total <= MAX_SPOOL_BYTES)
        invariant 0 <= k <= |entries| && pending == entries[k..] && fates == old(fates) && setbacks == old(setbacks)
        invariant k + Dropped(c.maxEntries, total, sizes[k..]) <= Shortest(c.maxEntries, sizes)
        invariant Total(sizes) <= U64_MAX ==>
            k + Dropped(c.maxEntries, total, sizes[k..]) == Shortest(c.maxEntries, sizes)
        decreases |entries| - k, io.Done?
      {
        io := *;
        var removed: bool := *;
        if io.Done? || io.Doubtful? || (io.Died? && removed) {
          DropNext(c.maxEntries, total, sizes, k);
          pending := entries[k + 1..];
          total := SatSub(total, sizes[k]);
          k := k + 1;
        }
      }
      evicted := entries[..k];
      fates := Mark(fates, evicted, Evicted);
      if !io.Done? || Total(sizes) > U64_MAX {
        setbacks := setbacks + 1;
      }
    }

    /** Takes a complete snapshot into the spool unless nothing about it is news. */
    method EnqueueIfNeeded(id: string, digest: Digest, size: nat) returns (r: EnqueueResult)
      requires Valid() && enqueuing.Resting? && !draining.Removed? && !Present(log, id)
      modifies this
      ensures Valid() && enqueuing.Resting?
      ensures r.Queued? ==> offered == Some(digest) == queued && Newest(pending) == Some(digest)
      ensures r.Unchanged? ==>
                && offered == Some(digest)
                && (queued == Some(digest) || (queued.None? && !old(Due(c, accepted, digest, clock))))
      ensures r.Queued? ==>
                || old(accepted.None? || accepted.value.digest != digest
                       || clock < accepted.value.at || clock >= accepted.value.at + c.refresh)
                || (old(queued).Some? && old(queued) != Some(digest))
      ensures r.Refused? ==> offered == old(offered)
      ensures setbacks >= old(setbacks)
      ensures setbacks == old(setbacks) ==> r.Queued? || r.Unchanged?
      ensures setbacks == old(setbacks) && r.Queued? ==> |pending| <= 1 || Meets(c.maxEntries, Sizes(pending))
    {
      var due := DueForSubmission(digest);
      Advance(c, origin, run, Now(), Consider(digest));
      run := run + [Consider(digest)];
      enqueuing := Decided(digest, due, queued);
      DrainMeanwhile();
      if queued == Some(digest) || (!due && queued.None?) {
        Advance(c, origin, run, Now(), Skip);
        run := run + [Skip];
        enqueuing, offered := Resting, Some(digest);
        return Unchanged;
      }
      r := Spool(Item(id, digest, size));
    }

    method Spool(item: Item) returns (r: EnqueueResult)
      requires Valid() && !draining.Removed? && !Present(log, item.id)
      requires enqueuing.Decided? && enqueuing.digest == item.digest && !Skips(Now(), item.digest, enqueuing.due)
      modifies this
      ensures Valid() && enqueuing.Resting? && !r.Unchanged?
      ensures r.Queued? ==> offered == Some(item.digest) == queued && Newest(pending) == Some(item.digest)
      ensures r.Refused? ==> offered == old(offered)
      ensures setbacks >= old(setbacks)
      ensures setbacks == old(setbacks) ==> r.Queued?
      ensures setbacks == old(setbacks) && r.Queued? ==> |pending| <= 1 || Meets(c.maxEntries, Sizes(pending))
    {
      var io: Io := *;
      setbacks := setbacks + if io.Done? then 0 else 1;
      if io.Failed? || io.Doubtful? {
        Perform(Write(item.id, item.size, io, 0));
        return Refused;
      }
      var landed: bool := *;
      if io.Died? && !landed {
        Start();
        return EnqueueDead;
      }
      ghost var s := Now();
      pending, log := pending + [item], log + [item];
      if io.Died? {
        LoseEnqueue(s, item, 0);
        return EnqueueDead;
      }
      r := Trim(s, item);
    }

    /** Brings the spool back within its limits and remembers what was queued. */
    method Trim(ghost s: State, item: Item) returns (r: EnqueueResult)
      requires InPlace(s, item, 0)
      modifies this
      ensures Valid() && enqueuing.Resting? && (r.Queued? || r.EnqueueDead?)
      ensures r.Queued? ==> offered == Some(item.digest) == queued && Newest(pending) == Some(item.digest)
      ensures setbacks >= old(setbacks)
      ensures setbacks == old(setbacks) ==> r.Queued? && (|pending| <= 1 || Meets(c.maxEntries, Sizes(pending)))
    {
      LeftMeetsLimits(c.maxEntries, pending);
      var evicted, io := EnforceLimit();
      if io.Died? {
        LoseEnqueue(s, item, |evicted|);
        return EnqueueDead;
      }
      FinishEnqueue(s, item, |evicted|);
      return Queued;
    }

    /** A file in place and `k` entries evicted since `s`, with memory still as it was. */
    ghost predicate InPlace(s: State, item: Item, k: nat)
      reads this
    {
      && Init(origin) && Recorded(c, origin, run, s) && (doubts == 0 ==> Settled(run))
      && k <= |s.pending| + 1 && k <= Shortest(c.maxEntries, Sizes(s.pending + [item]))
      && Now() == s.(pending := (s.pending + [item])[k..], log := s.log + [item],
                     fates := Mark(s.fates, (s.pending + [item])[..k], Evicted))
      && !s.draining.Removed? && s.enqueuing.Decided? && s.enqueuing.digest == item.digest
      && !Present(s.log, item.id) && !Skips(s, item.digest, s.enqueuing.due)
    }

    method FinishEnqueue(ghost s: State, item: Item, ghost k: nat)
      requires InPlace(s, item, k)
      modifies this`queued, this`offered, this`enqueuing, this`run
      ensures Valid() && enqueuing.Resting?
      ensures offered == Some(item.digest) == queued && Newest(pending) == Some(item.digest)
    {
      queued, offered, enqueuing := Some(item.digest), Some(item.digest), Resting;
      assert Sizes(s.pending + [item]) == Sizes(s.pending) + [item.size];
      Record(s, Write(item.id, item.size, Done, k));
    }

    method LoseEnqueue(ghost s: State, item: Item, ghost k: nat)
      requires InPlace(s, item, k)
      modifies this
      ensures Valid() && enqueuing.Resting? && setbacks == old(setbacks)
    {
      offered := Some(item.digest);
      LoadMemory();
      assert Sizes(s.pending + [item]) == Sizes(s.pending) + [item.size];
      Record(s, Write(item.id, item.size, Died, k));
    }

    // -------------------------------------------------------------- the draining task

    /** An await of the draining task: the other one runs, or the process is cut off and started again. */
    method Await() returns (alive: bool)
      requires Valid()
      modifies this
      ensures Valid() && Grows(old(fates), fates) && doubts >= old(doubts) && setbacks >= old(setbacks)
      ensures draining == if alive then old(draining) else Idle
      ensures acked == old(acked) && posts == old(posts)
      ensures setbacks == old(setbacks) <==> alive
      ensures alive ==> stored == old(stored) && accepted == old(accepted)
    {
      EnqueueMeanwhile();
      alive := *;
      if !alive {
        setbacks := setbacks + 1;
        Start();
      }
    }

    method GiveUp()
      requires Valid() && (draining.Posting? || draining.Listed?)
      modifies this
      ensures Valid() && draining.Idle? && fates == old(fates) && pending == old(pending)
      ensures doubts == old(doubts) && setbacks == old(setbacks)
      ensures acked == old(acked) && posts == old(posts)
    {
      Perform(Quit);
    }

    /** Obtains a token and posts the entry in hand. */
    method Post() returns (x: Exchange)
      requires Valid() && draining.Posting?
      modifies this
      ensures Valid() && Grows(old(fates), fates) && doubts >= old(doubts) && setbacks >= old(setbacks)
      ensures draining == if x.Answer? then old(draining) else Idle
      ensures setbacks == old(setbacks) <==> x.Answer?
      ensures acked == old(acked) && posts == old(posts) + (if x.Answer? then 1 else 0)
      ensures x.Answer? ==> x.response == answers(old(posts))
    {
      var token: bool := *;
      var alive := Await();
      if !alive { return Cut; }
      if !token {
        setbacks := setbacks + 1;
        GiveUp();
        return NoToken;
      }
      alive := Await();
      if !alive { return Cut; }
      x, posts := Answer(answers(posts)), posts + 1;
    }

    /** Moves an entry aside; nothing happens to one that is already gone. */
    method QuarantineById(id: string) returns (ok: bool)
      requires Valid() && draining.Posting? && draining.item.id == id
      modifies this
      ensures Valid() && Grows(old(fates), fates) && doubts == old(doubts) && setbacks >= old(setbacks)
      ensures ok <==> setbacks == old(setbacks)
      ensures ok ==> draining == Listed(old(draining.rest)) && id in fates
      ensures ok ==> pending == Without(old(pending), id)
      ensures !ok ==> draining.Idle?
      ensures acked == old(acked) && posts == old(posts)
    {
      ghost var s := Now();
      RecordedSpool(c, origin, run, s);
      InHandIsAccounted(s);
      ok := true;
      var io: Io := Done;
      if Present(pending, id) {
        io := *;
        io := if io.Died? then Failed else io;
        ok := io.Done?;
      } else {
        WithoutAbsent(pending, id);
      }
      setbacks := setbacks + if ok then 0 else 1;
      StepFrames(c, s, Reject(io));
      Perform(Reject(io));
    }

    /** One attempt: posts the entry, and once more with a new token if the token had expired for the first
        time. */
    method Attempt(refreshed: bool) returns (x: Exchange, got: seq<Response>, refreshed': bool)
      requires Valid() && draining.Posting?
      modifies this
      ensures Valid() && Grows(old(fates), fates) && doubts >= old(doubts) && setbacks >= old(setbacks)
      ensures draining == if x.Answer? then old(draining) else Idle
      ensures setbacks == old(setbacks) <==> x.Answer?
      ensures AreAnswers(answers, old(posts), got) && posts == old(posts) + |got| && acked == old(acked)
      ensures x.Answer? ==> OneAttempt(got, refreshed, refreshed') && x.response == got[|got| - 1]
      ensures !x.Answer? ==> got == [] || (got == [Auth] && !refreshed)
    {
      refreshed' := refreshed;
      x := Post();
      got := if x.Answer? then [x.response] else [];
      if x.Answer? && x.response.Auth? && !refreshed {
        refreshed' := true;
        x := Post();
        got := if x.Answer? then got + [x.response] else got;
      }
    }

    /** Posts one snapshot until the server decides, the attempts are used up or the token is refused. */
    method SubmitOne(id: string) returns (r: Submission, responses: seq<Response>)
      requires Valid() && draining.Posting? && draining.item.id == id
      modifies this
      ensures Valid() && Patient(responses) && Grows(old(fates), fates)
      ensures doubts >= old(doubts) && setbacks >= old(setbacks)
      ensures setbacks == old(setbacks) ==>
                && responses != []
                && (r.Submitted? <==> Handled(old(draining.item), responses).Sent())
                && (r.Rejected? <==> Handled(old(draining.item), responses).SetAside())
                && (r.Blocking? <==> GivenUp(responses))
                && !r.SubmitDead?
      ensures AreAnswers(answers, old(posts), responses) && posts == old(posts) + |responses| && acked == old(acked)
      ensures r.Submitted? ==> Last(responses) == Some(Accepted) && draining == old(draining)
      ensures r.Rejected? ==>
                && responses != [] && Permanent(Last(responses).value)
                && draining == Listed(old(draining.rest)) && id in fates
      ensures r.Blocking? || r.SubmitDead? ==> draining.Idle?
      ensures Last(responses) == Some(Accepted) ==> r.Submitted? || r.SubmitDead?
    {
      responses := [];
      var attempt, refreshed := 0, false;
      while true
        invariant Valid() && draining == old(draining) && Grows(old(fates), fates) && doubts >= old(doubts)
        invariant setbacks >= old(setbacks)
        invariant attempt < MAX_ATTEMPTS_PER_ENTRY && Ongoing(responses, attempt, refreshed)
        invariant AreAnswers(answers, old(posts), responses) && posts == old(posts) + |responses| && acked == old(acked)
        decreases MAX_ATTEMPTS_PER_ENTRY - attempt
      {
        var x, got, refreshed' := Attempt(refreshed);
        MoreAnswers(answers, old(posts), responses, got);
        if !x.Answer? {
          AttemptCut(responses, attempt, refreshed, got);
          r := if x.Cut? then SubmitDead else Blocking;
          return r, responses + got;
        }
        AttemptEnds(responses, attempt, refreshed, got, refreshed');
        responses, attempt, refreshed := responses + got, attempt + 1, refreshed';
        var over;
        over, r := Conclude(id, x.response, attempt >= MAX_ATTEMPTS_PER_ENTRY);
        if over { return; }
      }
    }

    /** What follows an answer: success, quarantine, giving up, or a wait before the next attempt. */
    method Conclude(id: string, last: Response, exhausted: bool) returns (over: bool, r: Submission)
      requires Valid() && draining.Posting? && draining.item.id == id
      modifies this
      ensures Valid() && Grows(old(fates), fates) && doubts >= old(doubts) && setbacks >= old(setbacks)
      ensures acked == old(acked) && posts == old(posts)
      ensures !over ==> draining == old(draining) && Retryable(last) && !exhausted && setbacks == old(setbacks)
      ensures over && setbacks == old(setbacks) ==>
                && (r.Submitted? <==> last.Accepted?) && (r.Rejected? <==> Permanent(last)) && !r.SubmitDead?
                && (Retryable(last) ==> exhausted)
      ensures over && r.Submitted? ==> last.Accepted? && draining == old(draining)
      ensures over && r.Rejected? ==> Permanent(last) && draining == Listed(old(draining.rest)) && id in fates
      ensures over && (r.Blocking? || r.SubmitDead?) ==> draining.Idle?
      ensures last.Accepted? ==> over && r.Submitted?
    {
      if last.Accepted? { return true, Submitted; }
      if Permanent(last) {
        var moved := QuarantineById(id);
        return true, if moved then Rejected else Blocking;
      }
      if !Retryable(last) || exhausted {
        GiveUp();
        return true, Blocking;
      }
      var alive := Await();
      return !alive, SubmitDead;
    }

    /** Opens the next listed entry; an entry that vanished or cannot be read ends the drain. */
    method ReadPending() returns (ok: bool)
      requires Valid() && draining.Listed? && draining.rest != []
      modifies this
      ensures Valid() && fates == old(fates) && doubts == old(doubts) && setbacks >= old(setbacks)
      ensures draining == if ok then Posting(old(draining.rest[0]), old(draining.rest[1..])) else Idle
      ensures setbacks == old(setbacks) ==> (ok <==> Present(pending, old(draining.rest[0].id)))
      ensures acked == old(acked) && posts == old(posts)
    {
      var readable: bool := *;
      if !readable {
        setbacks := setbacks + 1;
        GiveUp();
        return false;
      }
      ok := Present(pending, draining.rest[0].id);
      Perform(Open);
    }

    /** Takes an acknowledged entry out of the spool, then persists and remembers the acceptance. */
    method Acknowledge() returns (r: DrainResult)
      requires Valid() && draining.Posting?
      modifies this
      ensures Valid() && Grows(old(fates), fates) && doubts >= old(doubts) && setbacks >= old(setbacks)
      ensures !r.DrainedWithRejects? && (setbacks == old(setbacks) ==> r.Drained? && stored == accepted)
      ensures r.Drained? ==> draining == Listed(old(draining.rest)) && old(draining.item.id) in fates
      ensures r.Drained? ==> accepted.Some? && accepted.value.digest == old(draining.item.digest)
      ensures r.Drained? ==> acked == old(acked) + [old(draining.item.digest)]
      ensures posts == old(posts)
      ensures r.Aborted? || r.DrainDead? ==> draining.Idle?
    {
      var removed := RemoveFromSpool();
      if !removed { return Aborted; }
      var alive := StoreAccepted();
      if !alive { return DrainDead; }
      alive := Await();
      if !alive { return DrainDead; }
      RememberAccepted();
      return Drained;
    }

    /** An entry that is already gone counts as removed. */
    method RemoveFromSpool() returns (ok: bool)
      requires Valid() && draining.Posting?
      modifies this
      ensures Valid() && Grows(old(fates), fates) && doubts == old(doubts) && setbacks >= old(setbacks)
      ensures ok <==> setbacks == old(setbacks)
      ensures ok ==>
                && draining == Removed(AcceptedState(old(draining.item.digest), clock), old(draining.rest))
                && pending == Without(old(pending), old(draining.item.id)) && old(draining.item.id) in fates
      ensures !ok ==> draining.Idle? && pending == old(pending)
      ensures acked == old(acked) + [old(draining.item.digest)] && posts == old(posts)
    {
      ok := *;
      if !ok {
        setbacks := setbacks + 1;
        Perform(Ack(false));
        return;
      }
      ghost var s := Now();
      var item := draining.item;
      pending, fates, acked := Without(pending, item.id), fates[item.id := Acked], acked + [item.digest];
      draining := Removed(AcceptedState(item.digest, clock), draining.rest);
      Record(s, Ack(true));
    }

    method RememberAccepted()
      requires Valid() && draining.Recording?
      modifies this`accepted, this`draining, this`run
      ensures Valid() && accepted == Some(old(draining.accepting)) && draining == Listed(old(draining.rest))
    {
      ghost var s := Now();
      accepted, draining := Some(draining.accepting), Listed(draining.rest);
      Record(s, Remember);
    }

    /** Writes the state file; a failure is only logged. */
    method StoreAccepted() returns (alive: bool)
      requires Valid() && draining.Removed?
      modifies this
      ensures Valid() && fates == old(fates) && doubts == old(doubts) && setbacks >= old(setbacks)
      ensures alive ==> draining == Recording(old(draining.accepting), old(draining.rest))
      ensures !alive ==> draining.Idle?
      ensures setbacks == old(setbacks) ==> alive && stored == Some(old(draining.accepting))
      ensures acked == old(acked) && posts == old(posts)
    {
      var io: Io := *;
      var landed: bool := *;
      setbacks := setbacks + if io.Done? then 0 else 1;
      alive := !io.Died?;
      if alive || landed {
        Perform(Persist(if alive then io else Done));
      }
      if !alive {
        Start();
      }
    }

    method ClearEnqueuedIfSpoolEmpty() returns (r: DrainResult)
      requires Valid() && draining == Listed([])
      modifies this
      ensures Valid() && draining.Idle? && Grows(old(fates), fates)
      ensures doubts >= old(doubts) && setbacks >= old(setbacks)
      ensures !r.DrainedWithRejects? && (r.Drained? <==> setbacks == old(setbacks))
      ensures r.Drained? && pending == [] ==> queued.None?
      ensures acked == old(acked) && posts == old(posts)
    {
      var alive := Await();
      if !alive { return DrainDead; }
      var readable: bool := *;
      if !readable {
        setbacks := setbacks + 1;
        GiveUp();
        return Aborted;
      }
      ghost var s := Now();
      draining := Idle;
      if pending == [] {
        queued := None;
      }
      Record(s, Clear);
      return Drained;
    }

    /** Takes up the next listed entry: opened, submitted and, if accepted, retired. Drained and
        DrainedWithRejects say that it was accepted or set aside. */
    method DrainNext() returns (r: DrainResult, ghost h: Handled)
      requires Valid() && draining.Listed? && draining.rest != []
      modifies this
      ensures Valid() && Grows(old(fates), fates) && setbacks >= old(setbacks)
      ensures h.item == old(draining.rest[0])
      ensures r.Drained? || r.DrainedWithRejects? ==> draining == Listed(old(draining.rest[1..])) && h.item.id in fates
      ensures r.Aborted? || r.DrainDead? ==> draining.Idle?
      ensures setbacks == old(setbacks) ==>
                && (r.Drained? <==> h.Sent()) && (r.DrainedWithRejects? <==> h.SetAside()) && !r.DrainDead?
                && (h.responses == [] ==> !Present(pending, h.item.id))
                && (r.Aborted? && h.responses != [] ==> GivenUp(h.responses))
                && AreAnswers(answers, old(posts), h.responses) && posts == old(posts) + |h.responses|
                && acked == old(acked) + (if h.Sent() then [h.item.digest] else [])
    {
      var item := draining.rest[0];
      h := Handled(item, []);
      var ok := ReadPending();
      if !ok { return Aborted, h; }
      var submission, responses := SubmitOne(item.id);
      h := Handled(item, responses);
      match submission {
        case Submitted => r := Acknowledge();
        case Rejected => r := DrainedWithRejects;
        case Blocking => r := Aborted;
        case SubmitDead => r := DrainDead;
      }
    }

    /** Submits every pending entry, oldest first; `taken` lists those taken up and the answers each got. A drain
        that finishes has accounted for everything that was pending when it began. */
    method DrainSpool() returns (r: DrainResult, ghost taken: seq<Handled>)
      requires Valid() && draining.Idle?
      modifies this
      ensures Valid() && draining.Idle? && Grows(old(fates), fates) && setbacks >= old(setbacks)
      ensures setbacks == old(setbacks) ==>
                !r.DrainDead? && DrainOutcome(old(pending), taken, r)
                && Tallied(answers, old(posts), old(acked), taken, posts, acked)
      ensures setbacks == old(setbacks) && r.Aborted? && taken[|taken| - 1].responses == [] ==>
                !Present(pending, taken[|taken| - 1].item.id)
      ensures r.Drained? || r.DrainedWithRejects? ==> (pending == [] ==> queued.None?)
      ensures r.Drained? || r.DrainedWithRejects? ==>
                forall k :: 0 <= k < |old(pending)| ==> old(pending)[k].id in fates
    {
      var paths := pending;
      var rejects := false;
      taken := [];
      Perform(List);
      var i := 0;
      while i < |paths|
        invariant 0 <= i <= |paths| && Valid() && draining == Listed(paths[i..]) && Grows(old(fates), fates)
        invariant setbacks >= old(setbacks)
        invariant forall k :: 0 <= k < i ==> paths[k].id in fates
        invariant setbacks == old(setbacks) ==>
                    Underway(paths, taken, i, rejects, answers, old(posts), old(acked), posts, acked)
      {
        ghost var before, earlier, p, q := fates, taken, posts, acked;
        ghost var h: Handled;
        r, h := DrainNext();
        taken := earlier + [h];
        if setbacks == old(setbacks) {
          TakesUp(paths, earlier, i, rejects, answers, old(posts), old(acked), p, q, h, posts, acked, r);
        }
        if r.Aborted? || r.DrainDead? { return; }
        rejects := rejects || r.DrainedWithRejects?;
        assert Grows(before, fates);
        i := i + 1;
      }
      if setbacks == old(setbacks) {
        FinishesWith(paths, taken, rejects, answers, old(posts), old(acked), posts, acked);
      }
      r := ClearEnqueuedIfSpoolEmpty();
      if r.Drained? && rejects {
        r := DrainedWithRejects;
      }
    }
  }

  /** The answers given and the digests acknowledged since are those of the entries taken up. */
  ghost predicate Tallied(answers: nat -> Response, posts0: nat, acked0: seq<Digest>, taken: seq<Handled>,
                          posts: nat, acked: seq<Digest>) {
    && AreAnswers(answers, posts0, AllResponses(taken)) && posts == posts0 + |AllResponses(taken)|
    && acked == acked0 + SentDigests(taken)
  }

  /** The first i entries were taken up and each was accepted or set aside. Quantified, so that a drain does not
      unfold it. */
  ghost predicate Underway(items: seq<Item>, taken: seq<Handled>, i: nat, rejects: bool, answers: nat -> Response,
                           posts0: nat, acked0: seq<Digest>, posts: nat, acked: seq<Digest>) {
    forall all :: all == taken ==>
      AllSettled(items, all, i, rejects) && Tallied(answers, posts0, acked0, all, posts, acked)
  }

  ghost predicate AllSettled(items: seq<Item>, taken: seq<Handled>, i: nat, rejects: bool) {
    && |taken| == i <= |items|
    && (forall k :: 0 <= k < i ==> taken[k].item == items[k] && (taken[k].Sent() || taken[k].SetAside()))
    && (rejects <==> exists k :: 0 <= k < i && taken[k].SetAside())
  }

  /** One entry more: the drain goes on past one that was accepted or set aside, and ends with any other. */
  lemma TakesUp(items: seq<Item>, taken: seq<Handled>, i: nat, rejects: bool, answers: nat -> Response,
                posts0: nat, acked0: seq<Digest>, posts: nat, acked: seq<Digest>,
                h: Handled, posts': nat, acked': seq<Digest>, r: DrainResult)
    requires Underway(items, taken, i, rejects, answers, posts0, acked0, posts, acked)
    requires i < |items| && h.item == items[i] && !r.DrainDead?
    requires (r.Drained? <==> h.Sent()) && (r.DrainedWithRejects? <==> h.SetAside())
    requires r.Aborted? && h.responses != [] ==> GivenUp(h.responses)
    requires AreAnswers(answers, posts, h.responses) && posts' == posts + |h.responses|
    requires acked' == acked + (if h.Sent() then [h.item.digest] else [])
    ensures Tallied(answers, posts0, acked0, taken + [h], posts', acked')
    ensures if r.Aborted? then DrainOutcome(items, taken + [h], r)
            else Underway(items, taken + [h], i + 1, rejects || r.DrainedWithRejects?, answers, posts0, acked0,
                          posts', acked')
  {
    Sealed(items, taken, i, rejects, answers, posts0, acked0, posts, acked);
    TallyNext(answers, posts0, acked0, taken, posts, acked, h);
    if r.Aborted? {
      StopsAt(items, taken, i, rejects, h);
    } else {
      GoesOn(items, taken, i, rejects, h);
      Sealed(items, taken + [h], i + 1, rejects || h.SetAside(), answers, posts0, acked0, posts', acked');
    }
  }

  lemma TallyNext(answers: nat -> Response, posts0: nat, acked0: seq<Digest>, taken: seq<Handled>,
                  posts: nat, acked: seq<Digest>, h: Handled)
    requires Tallied(answers, posts0, acked0, taken, posts, acked) && AreAnswers(answers, posts, h.responses)
    ensures Tallied(answers, posts0, acked0, taken + [h], posts + |h.responses|,
                    acked + (if h.Sent() then [h.item.digest] else []))
  {
    assert (taken + [h])[..|taken|] == taken;
    MoreAnswers(answers, posts0, AllResponses(taken), h.responses);
    assert acked0 + (SentDigests(taken) + (if h.Sent() then [h.item.digest] else []))
        == acked0 + SentDigests(taken) + (if h.Sent() then [h.item.digest] else []);
  }

  lemma Sealed(items: seq<Item>, taken: seq<Handled>, i: nat, rejects: bool, answers: nat -> Response,
               posts0: nat, acked0: seq<Digest>, posts: nat, acked: seq<Digest>)
    ensures Underway(items, taken, i, rejects, answers, posts0, acked0, posts, acked)
            <==> AllSettled(items, taken, i, rejects) && Tallied(answers, posts0, acked0, taken, posts, acked)
  {}

  lemma GoesOn(items: seq<Item>, taken: seq<Handled>, i: nat, rejects: bool, h: Handled)
    requires AllSettled(items, taken, i, rejects) && i < |items| && h.item == items[i] && (h.Sent() || h.SetAside())
    ensures AllSettled(items, taken + [h], i + 1, rejects || h.SetAside())
  {
    var all := taken + [h];
    assert forall k :: 0 <= k < i ==> all[k] == taken[k];
    assert all[i] == h;
  }

  lemma StopsAt(items: seq<Item>, taken: seq<Handled>, i: nat, rejects: bool, h: Handled)
    requires AllSettled(items, taken, i, rejects) && i < |items| && h.item == items[i] && !h.Sent() && !h.SetAside()
    requires h.responses != [] ==> GivenUp(h.responses)
    ensures DrainOutcome(items, taken + [h], Aborted)
  {
    var all := taken + [h];
    assert forall k :: 0 <= k < i ==> all[k] == taken[k];
    assert all[i] == h;
  }

  lemma FinishesWith(items: seq<Item>, taken: seq<Handled>, rejects: bool, answers: nat -> Response,
                     posts0: nat, acked0: seq<Digest>, posts: nat, acked: seq<Digest>)
    requires Underway(items, taken, |items|, rejects, answers, posts0, acked0, posts, acked)
    ensures DrainOutcome(items, taken, if rejects then DrainedWithRejects else Drained)
    ensures Tallied(answers, posts0, acked0, taken, posts, acked)
  {
    Sealed(items, taken, |items|, rejects, answers, posts0, acked0, posts, acked);
  }
}
