/** The delivery queue as a state machine.

  One task collects and enqueues snapshots, another drains the spool. Both are polled by one loop, so a
  step of the machine is what either does between two of its awaits, split once more wherever a crash
  between two durable effects matters. Modification times increase with write order, so the spool is a
  sequence, oldest first.
 */
module DeliveryProtocol {
  import opened Durable
  import opened Options
  import Runs
  import opened SpoolLimit

  type Digest = string

  datatype Config = Config(maxEntries: nat, refresh: nat)

  /** A spooled snapshot: its id, which names the file, the digest of its content and the file's size. */
  datatype Item = Item(id: string, digest: Digest, size: nat)

  datatype AcceptedState = AcceptedState(digest: Digest, at: nat)

  datatype Fate = Acked | Quarantined | Evicted

  /** Where the enqueuing task is suspended. `before` is the queued digest when it looked at the last
      accepted state. */
  datatype Enqueuing = Resting | Decided(digest: Digest, due: bool, before: Option<Digest>)

  /** Where the draining task is suspended. */
  datatype Draining =
    | Idle
    | Listed(rest: seq<Item>)                                      // about to open the next path
    | Posting(item: Item, rest: seq<Item>)                         // waiting for the server
    | Removed(accepting: AcceptedState, rest: seq<Item>)           // entry gone, state not yet persisted
    | Recording(accepting: AcceptedState, rest: seq<Item>)         // state persisted, memory not yet updated

  datatype State = State(
    pending: seq<Item>,
    stored: Option<AcceptedState>,
    // memory
    queued: Option<Digest>,
    accepted: Option<AcceptedState>,
    enqueuing: Enqueuing,
    draining: Draining,
    clock: nat,
    // history
    log: seq<Item>,
    fates: map<string, Fate>,
    offered: Option<Digest>,
    acked: seq<Digest>)

  function Without(items: seq<Item>, id: string): seq<Item> {
    if items == [] then []
    else (if items[0].id == id then [] else [items[0]]) + Without(items[1..], id)
  }

  predicate Present(items: seq<Item>, id: string) {
    exists i :: 0 <= i < |items| && items[i].id == id
  }

  function Sizes(items: seq<Item>): (sizes: seq<nat>)
    ensures |sizes| == |items| && forall i :: 0 <= i < |items| ==> sizes[i] == items[i].size
  {
    seq(|items|, i requires 0 <= i < |items| => items[i].size)
  }

  function Mark(fates: map<string, Fate>, items: seq<Item>, fate: Fate): map<string, Fate> {
    if items == [] then fates else Mark(fates, items[1..], fate)[items[0].id := fate]
  }

  /** What a new process reads back: a zero timestamp makes the record invalid. */
  function Loaded(stored: Option<AcceptedState>): Option<AcceptedState> {
    if stored.Some? && stored.value.at == 0 then None else stored
  }

  function Newest(items: seq<Item>): Option<Digest> {
    if items == [] then None else Some(items[|items| - 1].digest)
  }

  predicate Due(c: Config, accepted: Option<AcceptedState>, digest: Digest, clock: nat) {
    accepted.Some? ==>
      accepted.value.at > clock || SatSub(clock, accepted.value.at) >= c.refresh || accepted.value.digest != digest
  }

  predicate Skips(s: State, digest: Digest, due: bool) {
    s.queued == Some(digest) || (!due && s.queued.None?)
  }

  datatype Action =
    // the enqueuing task
    | Consider(digest: Digest)
    | Skip
    | Write(id: string, size: nat, io: Io, evictions: nat)
    // the draining task
    | List
    | Open
    | Ack(removed: bool)
    | Persist(io: Io)
    | Remember
    | Reject(io: Io)
    | Quit
    | Clear
    // environment
    | Tick(to: nat)
    | Restart

  predicate Enabled(c: Config, s: State, a: Action) {
    // removal and persistence are one synchronous segment of the draining task
    && (s.draining.Removed? ==> a.Persist? || a.Restart?)
    && match a
       case Consider(digest) => s.enqueuing.Resting?
       case Skip => s.enqueuing.Decided? && Skips(s, s.enqueuing.digest, s.enqueuing.due)
       case Write(id, size, io, evictions) =>
         && s.enqueuing.Decided? && !Skips(s, s.enqueuing.digest, s.enqueuing.due)
         && !Present(s.log, id)
         && evictions <= Shortest(c.maxEntries, Sizes(s.pending) + [size])
       case List => s.draining.Idle?
       case Open => s.draining.Listed? && s.draining.rest != []
       case Ack(removed) => s.draining.Posting?
       case Persist(io) => s.draining.Removed? && !io.Died?
       case Remember => s.draining.Recording?
       case Reject(io) => s.draining.Posting? && !io.Died?
       case Quit => s.draining.Listed? || s.draining.Posting?
       case Clear => s.draining == Listed([])
       case Tick(to) => true
       case Restart => true
  }

  function Effect(c: Config, s: State, a: Action): State
    requires Enabled(c, s, a)
  {
    match a
    case Consider(digest) =>
      s.(enqueuing := Decided(digest, Due(c, s.accepted, digest, s.clock), s.queued))
    case Skip => s.(enqueuing := Resting, offered := Some(s.enqueuing.digest))
    case Write(id, size, io, evictions) =>
      var item := Item(id, s.enqueuing.digest, size);
      (match io
       case Done =>
         s.(pending := (s.pending + [item])[evictions..], queued := Some(item.digest), enqueuing := Resting,
            log := s.log + [item], offered := Some(item.digest),
            fates := Mark(s.fates, (s.pending + [item])[..evictions], Evicted))
       case Failed => s.(enqueuing := Resting)
       case Doubtful => s.(pending := s.pending + [item], log := s.log + [item], enqueuing := Resting)
       case Died =>
         // the file is in place, memory is lost
         Restarted(s.(pending := (s.pending + [item])[evictions..], log := s.log + [item], offered := Some(item.digest),
                      fates := Mark(s.fates, (s.pending + [item])[..evictions], Evicted))))
    case List => s.(draining := Listed(s.pending))
    case Open =>
      s.(draining := if Present(s.pending, s.draining.rest[0].id)
                     then Posting(s.draining.rest[0], s.draining.rest[1..]) else Idle)
    case Ack(removed) =>
      var item := s.draining.item;
      if removed then
        s.(pending := Without(s.pending, item.id), fates := s.fates[item.id := Acked],
           acked := s.acked + [item.digest],
           draining := Removed(AcceptedState(item.digest, s.clock), s.draining.rest))
      else s.(acked := s.acked + [item.digest], draining := Idle)
    case Persist(io) =>
      s.(stored := if io.Failed? then s.stored else Some(s.draining.accepting),
         draining := Recording(s.draining.accepting, s.draining.rest))
    case Remember => s.(accepted := Some(s.draining.accepting), draining := Listed(s.draining.rest))
    case Reject(io) =>
      var item := s.draining.item;
      if !Present(s.pending, item.id) then s.(draining := Listed(s.draining.rest))
      else if io.Failed? then s.(draining := Idle)
      else
        s.(pending := Without(s.pending, item.id), fates := s.fates[item.id := Quarantined],
           draining := if io.Done? then Listed(s.draining.rest) else Idle)
    case Quit => s.(draining := Idle)
    case Clear => s.(queued := if s.pending == [] then None else s.queued, draining := Idle)
    case Tick(to) => s.(clock := to)
    case Restart => Restarted(s)
  }

  /** A new process knows only what is on disk, and discards an invalid record of the last acceptance. */
  function Restarted(s: State): State {
    s.(stored := Loaded(s.stored), queued := Newest(s.pending), accepted := Loaded(s.stored),
       enqueuing := Resting, draining := Idle)
  }

  predicate Init(s: State) {
    s == State([], None, None, None, Resting, Idle, s.clock, [], map[], None, [])
  }

  function Step(c: Config): (State, Action) -> Option<State> {
    (s: State, a: Action) => if Enabled(c, s, a) then Some(Effect(c, s, a)) else None
  }

  /** Runs `run` from `s`; None when some action is not enabled where it occurs. */
  function Exec(c: Config, s: State, run: seq<Action>): Option<State> {
    Runs.Exec(Step(c), s, run)
  }
}
