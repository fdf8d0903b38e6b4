/** What every run of the delivery queue keeps: the spool invariant and convergence. */
module DeliveryClaims {
  import opened Durable
  import opened Options
  import Runs
  import opened SpoolLimit
  import opened DeliveryProtocol

  // ---------------------------------------------------------------- the spool invariant

  ghost predicate DistinctIds(log: seq<Item>) {
    forall i, j :: 0 <= i < j < |log| ==> log[i].id != log[j].id
  }

  predicate From(log: seq<Item>, r: nat, items: seq<Item>) {
    r + |items| <= |log| && log[r..r + |items|] == items
  }

  /** `items` are consecutive in the log and everything before them is gone from a spool that starts at `p`. */
  ghost predicate Ahead(log: seq<Item>, p: nat, items: seq<Item>) {
    exists r: nat :: r <= p && From(log, r, items)
  }

  function Gone(s: State): int { |s.log| - |s.pending| }

  predicate IsSuffix(log: seq<Item>, pending: seq<Item>) {
    |pending| <= |log| && pending == log[|log| - |pending|..]
  }

  predicate Suffix(s: State) { IsSuffix(s.log, s.pending) }

  /** Everything ever spooled and no longer pending was acknowledged, quarantined or evicted. */
  ghost predicate Accounted(s: State) { AllFated(s.log, Gone(s), s.fates) }

  ghost predicate AllFated(log: seq<Item>, gone: int, fates: map<string, Fate>) {
    forall i :: 0 <= i < gone ==> i < |log| && log[i].id in fates
  }

  ghost predicate NeighboursDiffer(items: seq<Item>) {
    forall i :: 0 <= i < |items| - 1 ==> items[i].digest != items[i + 1].digest
  }

  predicate QueueMatches(s: State) {
    s.pending != [] ==> s.queued == Newest(s.pending)
  }

  /** What the draining task still has in hand. */
  function InHand(d: Draining): seq<Item> {
    match d
    case Idle => []
    case Listed(rest) => rest
    case Posting(item, rest) => [item] + rest
    case Removed(_, rest) => rest
    case Recording(_, rest) => rest
  }

  /** What holds of the spool whatever happens, writes in doubt included. */
  ghost predicate SpoolBase(s: State) {
    && DistinctIds(s.log) && Suffix(s) && Accounted(s)
    && Ahead(s.log, Gone(s), InHand(s.draining))
    && (s.draining.Posting? ==> s.pending != [])
  }

  /** What the remembered digest has to do with the spool. */
  ghost predicate QueueInv(s: State) {
    && NeighboursDiffer(s.pending) && QueueMatches(s)
    && (s.queued.None? ==> s.draining.Idle? || s.draining == Listed([]))
  }

  ghost predicate SpoolInv(s: State) {
    SpoolBase(s) && QueueInv(s)
  }

  lemma NothingAhead(log: seq<Item>, p: int)
    requires p >= 0
    ensures Ahead(log, p, [])
  {
    assert From(log, 0, []);
  }

  lemma InitSpool(s: State)
    requires Init(s)
    ensures SpoolInv(s)
  {
    NothingAhead(s.log, Gone(s));
  }

  lemma {:induction false} WithoutAbsent(items: seq<Item>, id: string)
    requires !Present(items, id)
    ensures Without(items, id) == items
  {
    if items != [] {
      assert forall i :: 0 <= i < |items[1..]| ==> items[1..][i] == items[i + 1];
      WithoutAbsent(items[1..], id);
    }
  }

  /** The entry in hand is the oldest pending one or is already gone. */
  lemma InHandIsOldest(log: seq<Item>, p: nat, item: Item, rest: seq<Item>)
    requires DistinctIds(log) && p <= |log| && Ahead(log, p, [item] + rest)
    ensures Present(log[p..], item.id) ==>
              log[p..] != [] && log[p] == item && Without(log[p..], item.id) == log[p + 1..]
    ensures !Present(log[p..], item.id) ==> Without(log[p..], item.id) == log[p..]
    ensures Present(log[p..], item.id) ==> Ahead(log, p + 1, rest)
    ensures !Present(log[p..], item.id) ==> Ahead(log, p, rest)
  {
    var r: nat :| r <= p && From(log, r, [item] + rest);
    assert log[r] == ([item] + rest)[0];
    assert log[r + 1..r + 1 + |rest|] == ([item] + rest)[1..] == rest;
    assert From(log, r + 1, rest);
    assert r == p ==> log[p..][0].id == item.id && Present(log[p..], item.id);
    if Present(log[p..], item.id) {
      var i :| 0 <= i < |log[p..]| && log[p..][i].id == item.id;
      assert log[p + i].id == log[r].id;
      assert r == p;
      OnlyOnce(log, p);
    } else {
      WithoutAbsent(log[p..], item.id);
    }
  }

  lemma OnlyOnce(log: seq<Item>, p: nat)
    requires DistinctIds(log) && p < |log|
    ensures Without(log[p..], log[p].id) == log[p + 1..]
  {
    var tail := log[p..];
    assert tail[0] == log[p] && tail[1..] == log[p + 1..];
    var later := log[p + 1..];
    assert forall i :: 0 <= i < |later| ==> later[i] == log[p + 1 + i];
    WithoutAbsent(log[p + 1..], log[p].id);
  }

  lemma {:induction false} MarkCovers(fates: map<string, Fate>, items: seq<Item>, fate: Fate)
    ensures forall id :: id in fates ==> id in Mark(fates, items, fate)
    ensures forall i :: 0 <= i < |items| ==> items[i].id in Mark(fates, items, fate)
  {
    if items != [] {
      MarkCovers(fates, items[1..], fate);
      assert forall i :: 1 <= i < |items| ==> items[i] == items[1..][i - 1];
    }
  }

  lemma AheadGrows(log: seq<Item>, p: nat, items: seq<Item>, log': seq<Item>, p': nat)
    requires Ahead(log, p, items) && p <= p' && log <= log'
    ensures Ahead(log', p', items)
  {
    var r: nat :| r <= p && From(log, r, items);
    assert From(log', r, items);
  }

  lemma AppendKeepsSuffix(log: seq<Item>, pending: seq<Item>, item: Item, k: nat)
    requires IsSuffix(log, pending) && k <= |pending|
    ensures IsSuffix(log + [item], (pending + [item])[k..])
  {
    var p := |log| - |pending|;
    assert log[p..] + [item] == (log + [item])[p..];
    assert (log + [item])[p..][k..] == (log + [item])[p + k..];
  }

  lemma AppendAccounts(s: State, item: Item, k: nat, fates: map<string, Fate>)
    requires Suffix(s) && Accounted(s) && k <= |s.pending|
    requires fates == Mark(s.fates, (s.pending + [item])[..k], Evicted)
    ensures AllFated(s.log + [item], Gone(s) + k, fates)
  {
    var log, evicted := s.log + [item], (s.pending + [item])[..k];
    MarkCovers(s.fates, evicted, Evicted);
    forall i | 0 <= i < Gone(s) + k ensures i < |log| && log[i].id in fates {
      if i < Gone(s) {
        assert log[i] == s.log[i];
      } else {
        assert log[i] == s.log[Gone(s)..][i - Gone(s)] == evicted[i - Gone(s)];
      }
    }
  }

  lemma AppendNeighbours(pending: seq<Item>, item: Item, k: nat)
    requires NeighboursDiffer(pending) && Newest(pending) != Some(item.digest) && k <= |pending|
    ensures NeighboursDiffer((pending + [item])[k..]) && Newest((pending + [item])[k..]) == Some(item.digest)
  {}

  lemma AppendDistinct(log: seq<Item>, item: Item)
    requires DistinctIds(log) && !Present(log, item.id)
    ensures DistinctIds(log + [item])
  {}

  lemma AppendGone(log: seq<Item>, pending: seq<Item>, item: Item, k: nat)
    requires k <= |pending|
    ensures |log + [item]| - |(pending + [item])[k..]| == |log| - |pending| + k
  {}

  /** What a write that took effect leaves behind. */
  lemma Written(c: Config, s: State, a: Action)
    requires Enabled(c, s, a) && a.Write? && (a.io.Done? || a.io.Died?)
    ensures var t, item := Effect(c, s, a), Item(a.id, s.enqueuing.digest, a.size);
            && a.evictions <= |s.pending|
            && t.log == s.log + [item] && t.pending == (s.pending + [item])[a.evictions..]
            && t.fates == Mark(s.fates, (s.pending + [item])[..a.evictions], Evicted)
            && t.pending != [] && t.queued == Some(item.digest) == t.offered && t.enqueuing.Resting?
            && t.draining == if a.io.Done? then s.draining else Idle
  {
    assert a.evictions < |Sizes(s.pending) + [a.size]|;
  }

  lemma WrittenSuffix(s: State, item: Item, k: nat, t: State)
    requires Suffix(s) && k <= |s.pending| && t.log == s.log + [item] && t.pending == (s.pending + [item])[k..]
    ensures Suffix(t) && Gone(t) == Gone(s) + k
  {
    AppendKeepsSuffix(s.log, s.pending, item, k);
    AppendGone(s.log, s.pending, item, k);
  }

  lemma WrittenAccounted(s: State, item: Item, k: nat, t: State)
    requires Suffix(s) && Accounted(s) && k <= |s.pending| && t.log == s.log + [item] && Gone(t) == Gone(s) + k
    requires t.fates == Mark(s.fates, (s.pending + [item])[..k], Evicted)
    ensures Accounted(t)
  {
    AppendAccounts(s, item, k, t.fates);
  }

  lemma WrittenQueue(s: State, item: Item, k: nat, t: State)
    requires NeighboursDiffer(s.pending) && QueueMatches(s) && s.queued != Some(item.digest) && k <= |s.pending|
    requires t.pending == (s.pending + [item])[k..] && t.queued == Some(item.digest)
    ensures NeighboursDiffer(t.pending) && QueueMatches(t) && t.pending != []
  {
    AppendNeighbours(s.pending, item, k);
  }

  lemma WrittenAhead(s: State, item: Item, k: nat, t: State)
    requires 0 <= Gone(s) && Ahead(s.log, Gone(s), InHand(s.draining)) && Gone(t) == Gone(s) + k
    requires t.log == s.log + [item] && (t.draining == s.draining || t.draining.Idle?)
    ensures Ahead(t.log, Gone(t), InHand(t.draining))
  {
    NothingAhead(t.log, Gone(t));
    AheadGrows(s.log, Gone(s), InHand(s.draining), t.log, Gone(t));
  }

  lemma WrittenBase(s: State, item: Item, k: nat, t: State)
    requires SpoolBase(s) && !Present(s.log, item.id) && k <= |s.pending|
    requires t.log == s.log + [item] && t.pending == (s.pending + [item])[k..]
    requires t.fates == Mark(s.fates, (s.pending + [item])[..k], Evicted)
    requires t.draining == s.draining || t.draining.Idle?
    ensures SpoolBase(t)
  {
    AppendDistinct(s.log, item);
    WrittenSuffix(s, item, k, t);
    WrittenAccounted(s, item, k, t);
    WrittenAhead(s, item, k, t);
  }

  /** A write left in doubt: in place, but nothing else was done. */
  lemma DoubtfulWrite(c: Config, s: State, a: Action)
    requires Enabled(c, s, a) && a.Write? && a.io.Doubtful?
    ensures var t, item := Effect(c, s, a), Item(a.id, s.enqueuing.digest, a.size);
            && t == s.(pending := s.pending + [item], log := s.log + [item], enqueuing := Resting)
            && t.pending == (s.pending + [item])[0..] && t.fates == Mark(s.fates, (s.pending + [item])[..0], Evicted)
  {}

  lemma WriteKeepsBase(c: Config, s: State, a: Action)
    requires SpoolBase(s) && Enabled(c, s, a) && a.Write?
    ensures SpoolBase(Effect(c, s, a))
  {
    var item := Item(a.id, s.enqueuing.digest, a.size);
    if a.io.Doubtful? {
      DoubtfulWrite(c, s, a);
      WrittenBase(s, item, 0, Effect(c, s, a));
    } else if !a.io.Failed? {
      Written(c, s, a);
      WrittenBase(s, item, a.evictions, Effect(c, s, a));
    }
  }

  /** The entry in hand is the oldest pending one or gone. */
  lemma TakeOldest(s: State)
    requires SpoolBase(s) && s.draining.Posting?
    ensures var left, rest := Without(s.pending, s.draining.item.id), s.draining.rest;
            if Present(s.pending, s.draining.item.id) then
              && s.pending != [] && s.pending[0] == s.draining.item && left == s.pending[1..]
              && Ahead(s.log, Gone(s) + 1, rest)
            else left == s.pending && Ahead(s.log, Gone(s), rest)
  {
    InHandIsOldest(s.log, Gone(s), s.draining.item, s.draining.rest);
    assert s.log[Gone(s) + 1..] == s.log[Gone(s)..][1..] || Gone(s) >= |s.log|;
  }

  lemma DropOldest(s: State, fates: map<string, Fate>)
    requires Suffix(s) && Accounted(s) && s.pending != []
    requires s.fates.Keys <= fates.Keys && s.pending[0].id in fates
    ensures var t := s.(pending := s.pending[1..], fates := fates);
            Suffix(t) && Accounted(t) && Gone(t) == Gone(s) + 1
  {
    var p := Gone(s);
    assert s.log[p..][1..] == s.log[p + 1..];
    assert s.log[p] == s.pending[0];
  }

  /** Taking the entry in hand out of the spool. */
  lemma Take(s: State, fate: Fate, t: State)
    requires SpoolBase(s) && s.draining.Posting?
    requires t.log == s.log && t.pending == Without(s.pending, s.draining.item.id)
    requires t.fates == s.fates[s.draining.item.id := fate]
    requires (InHand(t.draining) == s.draining.rest && !t.draining.Posting?) || t.draining.Idle?
    ensures SpoolBase(t)
    ensures t.pending == s.pending || t.pending == s.pending[1..]
  {
    TakeOldest(s);
    if Present(s.pending, s.draining.item.id) {
      DropOldest(s, t.fates);
    }
    NothingAhead(t.log, Gone(t));
  }

  lemma GoIdle(s: State)
    requires SpoolBase(s)
    ensures SpoolBase(s.(draining := Idle))
  {
    NothingAhead(s.log, Gone(s));
  }

  /** Nothing the invariant speaks of changes but what the draining task waits for. */
  lemma SameSpool(s: State, t: State)
    requires SpoolBase(s) && t.log == s.log && t.pending == s.pending && t.fates == s.fates
    requires (InHand(t.draining) == InHand(s.draining) && (t.draining.Posting? ==> t.pending != [])) || t.draining.Idle?
    ensures SpoolBase(t)
  {
    assert Gone(t) == Gone(s);
    NothingAhead(t.log, Gone(t));
  }

  lemma ListKeepsBase(s: State)
    requires SpoolBase(s)
    ensures SpoolBase(s.(draining := Listed(s.pending)))
  {
    assert From(s.log, Gone(s), s.pending);
  }

  lemma OpenKeepsBase(c: Config, s: State)
    requires SpoolBase(s) && Enabled(c, s, Open)
    ensures SpoolBase(Effect(c, s, Open))
  {
    assert [s.draining.rest[0]] + s.draining.rest[1..] == s.draining.rest;
    SameSpool(s, Effect(c, s, Open));
  }

  lemma AckKeepsBase(c: Config, s: State, a: Action)
    requires SpoolBase(s) && Enabled(c, s, a) && a.Ack?
    ensures SpoolBase(Effect(c, s, a))
  {
    if a.removed {
      Take(s, Acked, Effect(c, s, a));
    } else {
      GoIdle(s);
    }
  }

  lemma RejectKeepsBase(c: Config, s: State, a: Action)
    requires SpoolBase(s) && Enabled(c, s, a) && a.Reject?
    ensures SpoolBase(Effect(c, s, a))
  {
    if !Present(s.pending, s.draining.item.id) {
      PassOver(s);
    } else if a.io.Failed? {
      GoIdle(s);
    } else {
      Take(s, Quarantined, Effect(c, s, a));
    }
  }

  /** Leaving out an entry that is gone. */
  lemma PassOver(s: State)
    requires SpoolBase(s) && s.draining.Posting? && !Present(s.pending, s.draining.item.id)
    ensures SpoolBase(s.(draining := Listed(s.draining.rest)))
  {
    TakeOldest(s);
  }

  /** No step of any kind breaks the base. */
  lemma BaseStep(c: Config, s: State, a: Action)
    requires SpoolBase(s) && Enabled(c, s, a)
    ensures SpoolBase(Effect(c, s, a))
  {
    if a.Write? {
      WriteKeepsBase(c, s, a);
    } else if a.Ack? {
      AckKeepsBase(c, s, a);
    } else if a.Reject? {
      RejectKeepsBase(c, s, a);
    } else if a.List? {
      ListKeepsBase(s);
    } else if a.Open? {
      OpenKeepsBase(c, s);
    } else {
      SameSpool(s, Effect(c, s, a));
    }
  }

  /** In every state of every run: the pending entries are a suffix of all entries ever spooled, each earlier
      one was acknowledged, quarantined or evicted, and what the draining task has in hand is consecutive and
      has nothing pending before it. */
  lemma {:induction false} SpoolAlwaysHolds(c: Config, s: State, run: seq<Action>)
    requires Init(s) && Exec(c, s, run).Some?
    ensures SpoolBase(Exec(c, s, run).value)
  {
    if run == [] {
      InitSpool(s);
    } else {
      SpoolAlwaysHolds(c, s, run[..|run| - 1]);
      BaseStep(c, Exec(c, s, run[..|run| - 1]).value, run[|run| - 1]);
    }
  }

  lemma WriteKeepsQueue(c: Config, s: State, a: Action)
    requires SpoolInv(s) && Enabled(c, s, a) && a.Write? && !a.io.Doubtful?
    ensures QueueInv(Effect(c, s, a))
  {
    if !a.io.Failed? {
      Written(c, s, a);
      WrittenQueue(s, Item(a.id, s.enqueuing.digest, a.size), a.evictions, Effect(c, s, a));
    }
  }

  /** Dropping the oldest entry leaves the rest of the queue as it was. */
  lemma TailKeepsQueue(s: State, t: State)
    requires NeighboursDiffer(s.pending) && QueueMatches(s) && s.queued.Some? && t.queued == s.queued
    requires t.pending == s.pending || (s.pending != [] && t.pending == s.pending[1..])
    ensures QueueInv(t)
  {}

  lemma TakeKeepsQueue(c: Config, s: State, a: Action)
    requires SpoolInv(s) && Enabled(c, s, a) && (a.Ack? || a.Reject?)
    ensures QueueInv(Effect(c, s, a))
  {
    TakeOldest(s);
    TailKeepsQueue(s, Effect(c, s, a));
  }

  lemma DrainKeepsQueue(c: Config, s: State, a: Action)
    requires QueueInv(s) && Enabled(c, s, a) && !a.Write? && !a.Ack? && !a.Reject?
    ensures QueueInv(Effect(c, s, a))
  {}

  lemma DoubtBreaksQueue(c: Config, s: State, a: Action)
    requires Enabled(c, s, a) && a.Write? && a.io.Doubtful?
    ensures !QueueMatches(Effect(c, s, a))
  {
    DoubtfulWrite(c, s, a);
  }

  /** Every step keeps the spool invariant, except an enqueue whose file was put in place but reported as
      failed, which always breaks it: the queue's newest digest is then not the remembered one. */
  lemma SpoolStep(c: Config, s: State, a: Action)
    requires SpoolInv(s) && Enabled(c, s, a)
    ensures SpoolInv(Effect(c, s, a)) <==> !(a.Write? && a.io.Doubtful?)
  {
    BaseStep(c, s, a);
    if a.Write? {
      if a.io.Doubtful? {
        DoubtBreaksQueue(c, s, a);
      } else {
        WriteKeepsQueue(c, s, a);
      }
    } else if a.Ack? || a.Reject? {
      TakeKeepsQueue(c, s, a);
    } else {
      DrainKeepsQueue(c, s, a);
    }
  }

  ghost predicate Settled(run: seq<Action>) {
    forall i :: 0 <= i < |run| ==> !(run[i].Write? && run[i].io.Doubtful?)
  }

  /** In every state any such run reaches, neighbouring digests differ besides, and the remembered digest of a
      non-empty queue is its newest one's. */
  lemma {:induction false} SpoolHolds(c: Config, s: State, run: seq<Action>)
    requires Init(s) && Settled(run) && Exec(c, s, run).Some?
    ensures SpoolInv(Exec(c, s, run).value)
  {
    if run == [] {
      InitSpool(s);
    } else {
      SpoolHolds(c, s, run[..|run| - 1]);
      SpoolStep(c, Exec(c, s, run[..|run| - 1]).value, run[|run| - 1]);
    }
  }

  // ---------------------------------------------------------------- convergence

  /** The last acceptance, also while the draining task has yet to record it. */
  function Latest(s: State): Option<AcceptedState> {
    if s.draining.Removed? || s.draining.Recording? then Some(s.draining.accepting) else s.accepted
  }

  predicate Carries(state: Option<AcceptedState>, digest: Digest) {
    state.Some? && state.value.digest == digest
  }

  /** The last digest offered is the queued one or, with nothing queued, the last accepted one. */
  predicate Converged(s: State) {
    s.offered.Some? ==>
      if s.queued.Some? then s.queued == s.offered else Carries(s.accepted, s.offered.value)
  }

  /** What a decision taken on the last accepted state still rests on when it is acted upon. */
  predicate Grounded(s: State) {
    s.enqueuing.Decided? && !s.enqueuing.due ==>
      match s.enqueuing.before
      case None => s.queued.None? && Carries(Latest(s), s.enqueuing.digest)
      case Some(x) => s.queued == Some(x) || (s.queued.None? && Carries(Latest(s), x))
  }

  /** Convergence with what it takes to keep it. */
  predicate Convergent(s: State) {
    && Converged(s)
    && (s.pending == [] && s.queued.Some? ==> Carries(Latest(s), s.queued.value))
    && (s.queued.Some? ==> s.offered.Some?)
    && (s.offered.None? ==> s.log == [] && Latest(s).None? && s.stored.None?)
    && Grounded(s)
  }

  /** The queue was acknowledged and cleared between an enqueue's look at the last accepted state and its
      look at the queue, behind a different digest: the decision not to submit is out of date. */
  predicate Overtaken(s: State) {
    && s.enqueuing.Decided? && !s.enqueuing.due && s.queued.None?
    && s.enqueuing.before.Some? && s.enqueuing.before.value != s.enqueuing.digest
  }

  /** The steps that lose convergence: a restart with nothing pending whose state file does not carry the last
      acceptance, a skip on an overtaken decision, and the quarantine of the last pending entry when the
      server has not accepted its content before. */
  predicate Loses(s: State, a: Action) {
    match a
    case Restart => s.pending == [] && Latest(s).Some? && !Carries(Loaded(s.stored), Latest(s).value.digest)
    case Skip => Overtaken(s)
    case Reject(io) =>
      && !io.Failed? && s.draining.Posting? && Without(s.pending, s.draining.item.id) == []
      && !Carries(s.accepted, s.draining.item.digest)
    case _ => false
  }

  lemma SkipConverges(c: Config, s: State)
    requires SpoolInv(s) && Convergent(s) && Enabled(c, s, Skip)
    ensures Convergent(Effect(c, s, Skip)) <==> !Overtaken(s)
  {}

  lemma WriteConverges(c: Config, s: State, a: Action)
    requires SpoolInv(s) && Convergent(s) && Enabled(c, s, a) && a.Write? && !a.io.Doubtful?
    ensures Convergent(Effect(c, s, a))
  {
    if !a.io.Failed? {
      Written(c, s, a);
    }
  }

  lemma AckConverges(c: Config, s: State, a: Action)
    requires SpoolInv(s) && Convergent(s) && Enabled(c, s, a) && a.Ack?
    ensures Convergent(Effect(c, s, a))
  {
    if a.removed {
      TakeOldest(s);
      LastInHand(s);
    }
  }

  lemma RejectConverges(c: Config, s: State, a: Action)
    requires SpoolInv(s) && Convergent(s) && Enabled(c, s, a) && a.Reject?
    ensures Convergent(Effect(c, s, a)) <==> !Loses(s, a)
  {
    LastInHand(s);
    if Present(s.pending, s.draining.item.id) && !a.io.Failed? {
      QuarantineConverges(s, Effect(c, s, a));
    } else {
      TakeOldest(s);
      PassingConverges(s, Effect(c, s, a));
    }
  }

  /** Without the last pending entry, the digest still remembered as queued must have been accepted. */
  lemma QuarantineConverges(s: State, t: State)
    requires Convergent(s) && s.draining.Posting? && s.queued.Some? && s.pending != []
    requires t.pending == [] ==> s.queued == Some(s.draining.item.digest)
    requires t.draining.Listed? || t.draining.Idle?
    requires t == s.(pending := t.pending, fates := t.fates, draining := t.draining)
    ensures Convergent(t) <==> !(t.pending == [] && !Carries(s.accepted, s.draining.item.digest))
  {}

  lemma PassingConverges(s: State, t: State)
    requires Convergent(s) && s.draining.Posting? && (t.draining.Listed? || t.draining.Idle?)
    requires t == s.(draining := t.draining)
    ensures Convergent(t)
  {}

  /** If taking the entry in hand empties a spool, it was the newest entry. */
  lemma LastInHand(s: State)
    requires SpoolInv(s) && s.draining.Posting?
    ensures Without(s.pending, s.draining.item.id) == [] ==>
              s.queued == Some(s.draining.item.digest) && s.pending == [s.draining.item]
  {
    InHandIsOldest(s.log, Gone(s), s.draining.item, s.draining.rest);
  }

  lemma DrainConverges(c: Config, s: State, a: Action)
    requires SpoolInv(s) && Convergent(s) && Enabled(c, s, a)
    requires a.Consider? || a.List? || a.Open? || a.Persist? || a.Remember? || a.Quit? || a.Clear? || a.Tick?
    ensures Convergent(Effect(c, s, a))
  {}

  lemma RestartConverges(c: Config, s: State)
    requires QueueMatches(s) && (s.log == [] ==> s.pending == []) && Convergent(s)
    requires s.queued.None? ==> s.draining.Idle? || s.draining == Listed([])
    ensures Convergent(Effect(c, s, Restart)) <==> !Loses(s, Restart)
  {}

  /** One step keeps convergence exactly when it is not one of the losing ones. */
  lemma ConvergentStep(c: Config, s: State, a: Action)
    requires SpoolInv(s) && Convergent(s) && Enabled(c, s, a) && !(a.Write? && a.io.Doubtful?)
    ensures Convergent(Effect(c, s, a)) <==> !Loses(s, a)
  {
    match a
    case Skip => SkipConverges(c, s);
    case Write(_, _, _, _) => WriteConverges(c, s, a);
    case Ack(_) => AckConverges(c, s, a);
    case Reject(_) => RejectConverges(c, s, a);
    case Restart => RestartConverges(c, s);
    case _ => DrainConverges(c, s, a);
  }

  ghost predicate Lossless(c: Config, s: State, run: seq<Action>) {
    && Settled(run)
    && forall i :: 0 <= i < |run| && Exec(c, s, run[..i]).Some? ==> !Loses(Exec(c, s, run[..i]).value, run[i])
  }

  /** Along every run without a losing step, the last digest offered is queued or accepted. */
  lemma {:induction false} LosslessConverges(c: Config, s: State, run: seq<Action>)
    requires Init(s) && Exec(c, s, run).Some? && Lossless(c, s, run)
    ensures Convergent(Exec(c, s, run).value)
  {
    if run != [] {
      var n := |run| - 1;
      LosslessPrefix(c, s, run);
      LosslessConverges(c, s, run[..n]);
      SpoolHolds(c, s, run[..n]);
      ConvergentStep(c, Exec(c, s, run[..n]).value, run[n]);
    }
  }

  lemma LosslessPrefix(c: Config, s: State, run: seq<Action>)
    requires run != [] && Lossless(c, s, run)
    ensures Lossless(c, s, run[..|run| - 1])
  {
    var n := |run| - 1;
    forall i | 0 <= i < n && Exec(c, s, run[..n][..i]).Some?
      ensures !Loses(Exec(c, s, run[..n][..i]).value, run[..n][i])
    {
      assert run[..n][..i] == run[..i];
    }
  }

  // ---------------------------------------------------------------- the events that convergence excludes

  /** The state file is current except while an acceptance is being persisted, and every acceptance has a
      time that makes it readable. */
  predicate Synced(s: State) {
    && (!s.draining.Removed? ==> s.stored == Latest(s))
    && (s.stored.Some? ==> s.stored.value.at > 0)
    && (Latest(s).Some? ==> Latest(s).value.at > 0)
  }

  /** A crash between the removal of an acknowledged entry and the persistence of its acceptance, a failed
      write of the state file, or an acceptance at time zero. */
  predicate Unpersisted(s: State, a: Action) {
    match a
    case Restart => s.draining.Removed?
    case Persist(io) => io.Failed?
    case Ack(removed) => removed && s.clock == 0
    case _ => false
  }

  lemma SyncedStep(c: Config, s: State, a: Action)
    requires Synced(s) && Enabled(c, s, a) && !Unpersisted(s, a)
    ensures Synced(Effect(c, s, a))
  {}

  /** No spool write is left in doubt, no acceptance goes unpersisted, no decision is overtaken, and the last
      pending entry is not quarantined unless its content was accepted before. */
  predicate Harmless(s: State, a: Action) {
    && !(a.Write? && a.io.Doubtful?)
    && !Unpersisted(s, a)
    && (a.Skip? || a.Reject? ==> !Loses(s, a))
  }

  ghost predicate Undisturbed(c: Config, s: State, run: seq<Action>)
    requires Exec(c, s, run).Some?
    decreases |run|
  {
    run == [] ||
    (var init := run[..|run| - 1];
     Undisturbed(c, s, init) && Harmless(Exec(c, s, init).value, run[|run| - 1]))
  }

  /** What is on disk carries over: a restart outside the gap loses nothing. */
  lemma RestartIsHarmless(s: State)
    requires Synced(s) && !s.draining.Removed?
    ensures !Loses(s, Restart) && Restarted(s).accepted == Latest(s)
  {}

  lemma HarmlessStep(c: Config, s: State, a: Action)
    requires SpoolInv(s) && Convergent(s) && Synced(s) && Enabled(c, s, a) && Harmless(s, a)
    ensures SpoolInv(Effect(c, s, a)) && Convergent(Effect(c, s, a)) && Synced(Effect(c, s, a))
  {
    SpoolStep(c, s, a);
    SyncedStep(c, s, a);
    if a.Restart? {
      RestartIsHarmless(s);
    }
    ConvergentStep(c, s, a);
  }

  lemma {:induction false} UndisturbedKeeps(c: Config, s: State, run: seq<Action>)
    requires Init(s) && Exec(c, s, run).Some? && Undisturbed(c, s, run)
    ensures var t := Exec(c, s, run).value; SpoolInv(t) && Convergent(t) && Synced(t)
  {
    if run == [] {
      InitSpool(s);
    } else {
      UndisturbedKeeps(c, s, run[..|run| - 1]);
      HarmlessStep(c, Exec(c, s, run[..|run| - 1]).value, run[|run| - 1]);
    }
  }

  /** Along every run without such an event, restarts at any other time included, the last digest offered is
      the queued one or, with nothing queued, the last accepted one, in memory and on disk. */
  lemma DeliveryConverges(c: Config, s: State, run: seq<Action>)
    requires Init(s) && Exec(c, s, run).Some? && Undisturbed(c, s, run)
    ensures var t := Exec(c, s, run).value;
            && Converged(t)
            && (t.offered.Some? && t.queued.None? ==> Carries(t.accepted, t.offered.value) && t.stored == t.accepted)
  {
    UndisturbedKeeps(c, s, run);
  }

  // ---------------------------------------------------------------- what the server ends up with

  /** Once nothing is pending, the last digest the server acknowledged is the last one offered. */
  predicate ServerHolds(s: State) {
    s.pending == [] && s.offered.Some? ==> s.acked != [] && s.acked[|s.acked| - 1] == s.offered.value
  }

  lemma ServerAck(c: Config, s: State, a: Action)
    requires SpoolInv(s) && Convergent(s) && ServerHolds(s) && Enabled(c, s, a) && a.Ack?
    ensures ServerHolds(Effect(c, s, a))
  {
    if a.removed {
      LastInHand(s);
    }
  }

  lemma ServerSkip(c: Config, s: State)
    requires s.queued.None? ==> s.draining.Idle? || s.draining == Listed([])
    requires s.pending != [] ==> s.queued.Some?
    requires Convergent(s) && ServerHolds(s) && Enabled(c, s, Skip) && !Overtaken(s)
    ensures ServerHolds(Effect(c, s, Skip))
  {
    assert s.pending == [] ==> s.offered == Some(s.enqueuing.digest);
  }

  lemma ServerWrite(c: Config, s: State, a: Action)
    requires ServerHolds(s) && Enabled(c, s, a) && a.Write? && !a.io.Doubtful?
    ensures ServerHolds(Effect(c, s, a))
  {
    if !a.io.Failed? {
      Written(c, s, a);
    }
  }

  lemma ServerReject(c: Config, s: State, a: Action)
    requires ServerHolds(s) && Enabled(c, s, a) && a.Reject? && a.io.Failed?
    ensures ServerHolds(Effect(c, s, a))
  {}

  lemma ServerStep(c: Config, s: State, a: Action)
    requires SpoolInv(s) && Convergent(s) && ServerHolds(s) && Enabled(c, s, a)
    requires !(a.Write? && a.io.Doubtful?) && !Loses(s, a) && !(a.Reject? && !a.io.Failed?)
    ensures ServerHolds(Effect(c, s, a))
  {
    if a.Write? {
      ServerWrite(c, s, a);
    } else if a.Ack? {
      ServerAck(c, s, a);
    } else if a.Skip? {
      ServerSkip(c, s);
    } else if a.Reject? {
      ServerReject(c, s, a);
    }
  }

  /** Without quarantine either, a drained queue means that the server acknowledged the last digest offered
      after every other: a return to an earlier state is never swallowed. */
  lemma {:induction false} ServerConverges(c: Config, s: State, run: seq<Action>)
    requires Init(s) && Exec(c, s, run).Some? && Undisturbed(c, s, run)
    requires forall i :: 0 <= i < |run| ==> !(run[i].Reject? && !run[i].io.Failed?)
    ensures ServerHolds(Exec(c, s, run).value)
  {
    if run != [] {
      var n := |run| - 1;
      var prior := Exec(c, s, run[..n]).value;
      ServerConverges(c, s, run[..n]);
      UndisturbedKeeps(c, s, run[..n]);
      if run[n].Restart? {
        RestartIsHarmless(prior);
      }
      ServerStep(c, prior, run[n]);
    }
  }

  // ---------------------------------------------------------------- the overtaken return

  predicate Quiet(s: State) {
    s.pending == [] && s.queued.None? && s.enqueuing.Resting? && s.draining.Idle?
  }

  /** `digest` was accepted and needs no refresh yet. */
  predicate Fresh(c: Config, s: State, digest: Digest) {
    Carries(s.accepted, digest) && !Due(c, s.accepted, digest, s.clock)
  }

  /** A changed snapshot is queued, the draining task opens it, and the enqueuing task, offered the earlier
      state again, finds that state accepted. */
  lemma ChangeThenReturn(c: Config, s: State, changed: Digest, back: Digest, id: string)
    returns (run: seq<Action>, t: State)
    requires Quiet(s) && Fresh(c, s, back) && changed != back && !Present(s.log, id)
    ensures Exec(c, s, run) == Some(t)
    ensures t.pending == [Item(id, changed, 0)] && t.draining == Posting(Item(id, changed, 0), [])
    ensures t.enqueuing == Decided(back, false, Some(changed)) && t.queued == Some(changed)
    ensures t.acked == s.acked
  {
    var write := Write(id, 0, Done, 0);
    var s1 := Effect(c, s, Consider(changed));
    var s2 := Effect(c, s1, write);
    var s3 := Effect(c, s2, List);
    assert s3.draining.rest[0] == s3.pending[0];
    var s4 := Effect(c, s3, Open);
    t := Effect(c, s4, Consider(back));
    run := [Consider(changed), write, List, Open, Consider(back)];
    Runs.Chain(Step(c), [s, s1, s2, s3, s4, t], run);
  }

  /** The server accepts the change, the queue is cleared, and then the return is skipped. */
  lemma AcceptThenSkip(c: Config, s: State, back: Digest)
    returns (run: seq<Action>, t: State)
    requires s.draining.Posting? && s.draining.rest == [] && s.pending == [s.draining.item]
    requires s.enqueuing.Decided? && s.enqueuing.digest == back && !s.enqueuing.due
    ensures Exec(c, s, run) == Some(t)
    ensures Quiet(t) && t.offered == Some(back) && t.acked == s.acked + [s.draining.item.digest]
    ensures t.accepted == Some(AcceptedState(s.draining.item.digest, s.clock)) == t.stored
  {
    assert s.pending[0] == s.draining.item && s.pending[1..] == [];
    assert Without(s.pending, s.draining.item.id) == [];
    var s1 := Effect(c, s, Ack(true));
    var s2 := Effect(c, s1, Persist(Done));
    var s3 := Effect(c, s2, Remember);
    var s4 := Effect(c, s3, Clear);
    t := Effect(c, s4, Skip);
    run := [Ack(true), Persist(Done), Remember, Clear, Skip];
    Runs.Chain(Step(c), [s, s1, s2, s3, s4, t], run);
  }

  /** The overtaken decision is real: from every quiet state whose accepted digest is fresh, there is a run in
      which nothing fails, at whose end the server holds the change, the return was offered last, and nothing
      is queued that would ever deliver it. */
  lemma OvertakenReturnIsLost(c: Config, s: State, changed: Digest, back: Digest, id: string)
    returns (run: seq<Action>, t: State)
    requires Quiet(s) && Fresh(c, s, back) && changed != back && !Present(s.log, id)
    ensures Exec(c, s, run) == Some(t) && Quiet(t) && !Converged(t)
    ensures t.offered == Some(back) && t.acked == s.acked + [changed]
  {
    var first, mid := ChangeThenReturn(c, s, changed, back, id);
    var second;
    second, t := AcceptThenSkip(c, mid, back);
    run := first + second;
    Runs.Concat(Step(c), s, first, mid, second);
  }

  /** One snapshot queued and opened for posting. */
  lemma OpenOne(c: Config, s: State, digest: Digest, id: string) returns (run: seq<Action>, t: State)
    requires Quiet(s) && Due(c, s.accepted, digest, s.clock) && !Present(s.log, id)
    ensures Exec(c, s, run) == Some(t)
    ensures var item := Item(id, digest, 0);
            && t.draining == Posting(item, []) && t.pending == [item] && t.log == s.log + [item]
            && t.enqueuing.Resting? && t.offered == Some(digest) == t.queued
    ensures t.stored == s.stored && t.clock == s.clock && t.acked == s.acked
  {
    var write, item := Write(id, 0, Done, 0), Item(id, digest, 0);
    var s1 := Effect(c, s, Consider(digest));
    var s2 := Effect(c, s1, write);
    var s3 := Effect(c, s2, List);
    assert s3.draining.rest[0] == s3.pending[0] == item && s3.pending[1..] == [];
    t := Effect(c, s3, Open);
    run := [Consider(digest), write, List, Open];
    Runs.Chain(Step(c), [s, s1, s2, s3, t], run);
  }

  /** One snapshot delivered from request to acceptance. */
  lemma DeliverOne(c: Config, s: State, digest: Digest, id: string) returns (run: seq<Action>, t: State)
    requires Quiet(s) && Due(c, s.accepted, digest, s.clock) && !Present(s.log, id)
    ensures Exec(c, s, run) == Some(t) && Quiet(t)
    ensures t.accepted == Some(AcceptedState(digest, s.clock)) == t.stored && t.clock == s.clock
    ensures t.log == s.log + [Item(id, digest, 0)]
  {
    var queued, mid := OpenOne(c, s, digest, id);
    var accepted;
    accepted, t := AcceptOne(c, mid, Item(id, digest, 0));
    Runs.Concat(Step(c), s, queued, mid, accepted);
    run := queued + accepted;
  }

  /** From the start: the server accepts the first snapshot and the agent crashes before it persists the
      acceptance. The new process knows neither a queued nor an accepted state. */
  lemma CrashInGapForgets(c: Config, s0: State, digest: Digest) returns (run: seq<Action>, t: State)
    requires Init(s0)
    ensures Exec(c, s0, run) == Some(t) && Quiet(t) && !Converged(t)
    ensures t.accepted.None? && t.offered == Some(digest) && t.acked == [digest]
  {
    var queued, s1 := OpenOne(c, s0, digest, "1");
    assert s1.pending[0] == s1.draining.item && s1.pending[1..] == [] && Without(s1.pending, "1") == [];
    var s2 := Effect(c, s1, Ack(true));
    t := Effect(c, s2, Restart);
    Runs.Chain(Step(c), [s1, s2, t], [Ack(true), Restart]);
    Runs.Concat(Step(c), s0, queued, s1, [Ack(true), Restart]);
    run := queued + [Ack(true), Restart];
  }

  lemma AcceptOne(c: Config, s: State, item: Item) returns (run: seq<Action>, t: State)
    requires s.draining == Posting(item, []) && s.pending == [item] && s.enqueuing.Resting?
    ensures Exec(c, s, run) == Some(t) && Quiet(t)
    ensures t.accepted == Some(AcceptedState(item.digest, s.clock)) == t.stored && t.clock == s.clock && t.log == s.log
  {
    assert s.pending[0] == item && s.pending[1..] == [] && Without(s.pending, item.id) == [];
    var s1 := Effect(c, s, Ack(true));
    var s2 := Effect(c, s1, Persist(Done));
    var s3 := Effect(c, s2, Remember);
    t := Effect(c, s3, Clear);
    run := [Ack(true), Persist(Done), Remember, Clear];
    Runs.Chain(Step(c), [s, s1, s2, s3, t], run);
  }

  /** And such a state is reached from the start: one delivery, a change, and a return that is never delivered. */
  lemma ReturnLostFromStart(c: Config, s0: State, changed: Digest, back: Digest) returns (run: seq<Action>, t: State)
    requires Init(s0) && c.refresh > 0 && changed != back
    ensures Exec(c, s0, run) == Some(t) && Quiet(t) && !Converged(t)
    ensures t.offered == Some(back) && t.acked != [] && t.acked[|t.acked| - 1] == changed
  {
    var delivered, s := DeliverOne(c, s0, back, "1");
    var lost;
    lost, t := OvertakenReturnIsLost(c, s, changed, back, "2");
    Runs.Concat(Step(c), s0, delivered, s, lost);
    run := delivered + lost;
  }
}
