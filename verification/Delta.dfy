/** Deltas between snapshots, gated by how completely each source was collected. */
module Delta {
  import opened Options
  import opened Ordering
  import opened Sorting
  import opened VersionOrder
  import opened Identity
  import opened Inventory

  datatype DeltaAction = Added | Removed | Modified

  datatype Change = Change(action: DeltaAction, entry: Entry, previousVersion: Option<string>)

  // ---------------------------------------------------------------- ordered maps

  datatype Pair = Pair(key: string, entry: Entry)

  ghost predicate Ascending(m: seq<Pair>) {
    forall i, j :: 0 <= i < j < |m| ==> CompareText(m[i].key, m[j].key).Less?
  }

  function Put(m: seq<Pair>, key: string, e: Entry): seq<Pair> {
    if m == [] then [Pair(key, e)]
    else
      match CompareText(key, m[0].key)
      case Less => [Pair(key, e)] + m
      case Equal => [Pair(key, e)] + m[1..]
      case Greater => [m[0]] + Put(m[1..], key, e)
  }

  function Lookup(m: seq<Pair>, key: string): Option<Entry> {
    if m == [] then None else if m[0].key == key then Some(m[0].entry) else Lookup(m[1..], key)
  }

  /** The rows by key, a later row replacing an earlier one. */
  function Index(t: Tables, schema: nat, rows: seq<Entry>): seq<Pair> {
    if rows == [] then []
    else
      var e := rows[|rows| - 1];
      Put(Index(t, schema, rows[..|rows| - 1]), IdentityKey(t, schema, e), e)
  }

  method Collect(t: Tables, schema: nat, rows: seq<Entry>) returns (m: seq<Pair>)
    ensures m == Index(t, schema, rows)
  {
    m := [];
    for i := 0 to |rows|
      invariant m == Index(t, schema, rows[..i])
    {
      assert rows[..i + 1][..i] == rows[..i];
      m := Put(m, IdentityKey(t, schema, rows[i]), rows[i]);
    }
    assert rows[..|rows|] == rows;
  }

  // ---------------------------------------------------------------- the delta

  /** Whether the snapshot speaks for a source: the old schema always does, the current one when it
      collected the source completely. */
  predicate Covered(c: Content, source: Source) {
    c.schema == SCHEMA ==> exists r :: r in c.sources && r.source == source && r.status.Complete?
  }

  function Upsert(c: Content, prev: seq<Pair>): Pair -> Option<Change> {
    (p: Pair) =>
      if !Covered(c, p.entry.source) then None
      else
        var before := Lookup(prev, p.key);
        if before.None? then Some(Change(Added, p.entry, None))
        else if before.value.version != p.entry.version then Some(Change(Modified, p.entry, before.value.version))
        else None
  }

  function Removal(c: Content, curr: seq<Pair>): Pair -> Option<Change> {
    (p: Pair) =>
      if Lookup(curr, p.key).None? && Covered(c, p.entry.source)
      then Some(Change(Removed, p.entry, p.entry.version))
      else None
  }

  function ChangeOrder(t: Tables): (Change, Change) -> Order {
    (a: Change, b: Change) => CompareText(ComparisonKey(t, a.entry), ComparisonKey(t, b.entry))
  }

  function Unordered(c: Content, curr: seq<Pair>, prev: seq<Pair>): seq<Change> {
    FilterMap(Upsert(c, prev), curr) + FilterMap(Removal(c, curr), prev)
  }

  /** The delta of `c` against the rows `previous`. */
  function Difference(t: Tables, c: Content, previous: seq<Entry>): seq<Change> {
    Sort(ChangeOrder(t), Unordered(c, Index(t, c.schema, c.software), Index(t, c.schema, previous)))
  }

  method CollectUpserts(c: Content, curr: seq<Pair>, prev: seq<Pair>) returns (changes: seq<Change>)
    ensures changes == FilterMap(Upsert(c, prev), curr)
  {
    changes := [];
    for i := 0 to |curr|
      invariant changes == FilterMap(Upsert(c, prev), curr[..i])
    {
      assert curr[..i + 1][..i] == curr[..i];
      var entry := curr[i].entry;
      if Covered(c, entry.source) {
        match Lookup(prev, curr[i].key)
        case Some(before) =>
          if entry.version != before.version {
            changes := changes + [Change(Modified, entry, before.version)];
          }
        case None =>
          changes := changes + [Change(Added, entry, None)];
      }
    }
    assert curr[..|curr|] == curr;
  }

  method CollectRemovals(c: Content, curr: seq<Pair>, prev: seq<Pair>) returns (changes: seq<Change>)
    ensures changes == FilterMap(Removal(c, curr), prev)
  {
    changes := [];
    for i := 0 to |prev|
      invariant changes == FilterMap(Removal(c, curr), prev[..i])
    {
      assert prev[..i + 1][..i] == prev[..i];
      var entry := prev[i].entry;
      if Lookup(curr, prev[i].key).None? && Covered(c, entry.source) {
        changes := changes + [Change(Removed, entry, entry.version)];
      }
    }
    assert prev[..|prev|] == prev;
  }

  method Diff(t: Tables, c: Content, previous: seq<Entry>) returns (changes: seq<Change>)
    ensures changes == Difference(t, c, previous)
  {
    var prev := Collect(t, c.schema, previous);
    var curr := Collect(t, c.schema, c.software);
    var upserts := CollectUpserts(c, curr, prev);
    var removals := CollectRemovals(c, curr, prev);
    changes := Sort(ChangeOrder(t), upserts + removals);
  }

  // ---------------------------------------------------------------- what a receiver does with it

  /** What a receiver stores: a version for every key. */
  type Versions = map<string, Option<string>>

  function At(m: Versions, key: string): Option<Option<string>> {
    if key in m then Some(m[key]) else None
  }

  function VersionsOf(m: seq<Pair>): Versions {
    if m == [] then map[] else VersionsOf(m[1..])[m[0].key := m[0].entry.version]
  }

  function Stored(t: Tables, schema: nat, rows: seq<Entry>): Versions {
    VersionsOf(Index(t, schema, rows))
  }

  function ChangeKey(t: Tables, schema: nat, ch: Change): string { IdentityKey(t, schema, ch.entry) }

  function After(ch: Change): Option<Option<string>> {
    if ch.action.Removed? then None else Some(ch.entry.version)
  }

  function ApplyOne(t: Tables, schema: nat, ch: Change, m: Versions): Versions {
    var key := ChangeKey(t, schema, ch);
    if ch.action.Removed? then m - {key} else m[key := ch.entry.version]
  }

  function Apply(t: Tables, schema: nat, changes: seq<Change>, m: Versions): Versions {
    if changes == [] then m else Apply(t, schema, changes[1..], ApplyOne(t, schema, changes[0], m))
  }

  // ---------------------------------------------------------------- maps behave

  lemma {:induction false} PutFinds(m: seq<Pair>, key: string, e: Entry, k: string)
    ensures Lookup(Put(m, key, e), k) == if k == key then Some(e) else Lookup(m, k)
  {
    if m != [] {
      TextFlip(key, m[0].key);
      if CompareText(key, m[0].key).Greater? {
        PutFinds(m[1..], key, e, k);
      }
    }
  }

  lemma {:induction false} PutKeys(m: seq<Pair>, key: string, e: Entry)
    ensures forall p :: p in Put(m, key, e) ==> p == Pair(key, e) || p in m
  {
    if m != [] && CompareText(key, m[0].key).Greater? {
      PutKeys(m[1..], key, e);
    }
  }

  lemma {:induction false} PutAscends(m: seq<Pair>, key: string, e: Entry)
    requires Ascending(m)
    ensures Ascending(Put(m, key, e))
  {
    if m != [] {
      TextFlip(key, m[0].key);
      match CompareText(key, m[0].key)
      case Less =>
        forall j | 0 <= j < |m| ensures CompareText(key, m[j].key).Less? { TextChains(key, m[0].key, m[j].key); }
      case Equal =>
      case Greater =>
        PutAscends(m[1..], key, e);
        PutKeys(m[1..], key, e);
        var rest := Put(m[1..], key, e);
        forall j | 0 <= j < |rest| ensures CompareText(m[0].key, rest[j].key).Less? {
          assert rest[j] in rest;
        }
    }
  }

  /** Every pair is filed under its own entry's key. */
  ghost predicate Filed(t: Tables, schema: nat, m: seq<Pair>) {
    forall p :: p in m ==> p.key == IdentityKey(t, schema, p.entry)
  }

  lemma {:induction false} IndexIsFiled(t: Tables, schema: nat, rows: seq<Entry>)
    ensures Ascending(Index(t, schema, rows)) && Filed(t, schema, Index(t, schema, rows))
    ensures forall p :: p in Index(t, schema, rows) ==> p.entry in rows
    ensures forall e :: e in rows ==> Lookup(Index(t, schema, rows), IdentityKey(t, schema, e)).Some?
  {
    if rows != [] {
      var init, e := rows[..|rows| - 1], rows[|rows| - 1];
      IndexIsFiled(t, schema, init);
      PutAscends(Index(t, schema, init), IdentityKey(t, schema, e), e);
      PutKeys(Index(t, schema, init), IdentityKey(t, schema, e), e);
      forall x | x in rows ensures Lookup(Index(t, schema, rows), IdentityKey(t, schema, x)).Some? {
        PutFinds(Index(t, schema, init), IdentityKey(t, schema, e), e, IdentityKey(t, schema, x));
        assert x in init || x == e;
      }
    }
  }

  lemma {:induction false} LookupIsMember(m: seq<Pair>, key: string)
    ensures Lookup(m, key).Some? ==> Pair(key, Lookup(m, key).value) in m
    ensures Lookup(m, key).None? ==> forall p :: p in m ==> p.key != key
  {
    if m != [] && m[0].key != key {
      LookupIsMember(m[1..], key);
    }
  }

  lemma {:induction false} LookupOfMember(m: seq<Pair>, p: Pair)
    requires Ascending(m) && p in m
    ensures Lookup(m, p.key) == Some(p.entry)
  {
    if m[0] == p {
    } else {
      var i :| 0 <= i < |m| && m[i] == p;
      TextFlip(m[0].key, p.key);
      LookupOfMember(m[1..], p);
    }
  }

  lemma {:induction false} StoredAt(m: seq<Pair>, key: string)
    ensures At(VersionsOf(m), key) == if Lookup(m, key).Some? then Some(Lookup(m, key).value.version) else None
  {
    if m != [] {
      StoredAt(m[1..], key);
    }
  }

  // ---------------------------------------------------------------- applying distinct changes

  ghost predicate Distinct(t: Tables, schema: nat, changes: seq<Change>) {
    forall i, j :: 0 <= i < j < |changes| ==>
      ChangeKey(t, schema, changes[i]) != ChangeKey(t, schema, changes[j])
  }

  lemma {:induction false} ApplyMiss(t: Tables, schema: nat, changes: seq<Change>, m: Versions, key: string)
    requires forall ch :: ch in changes ==> ChangeKey(t, schema, ch) != key
    ensures At(Apply(t, schema, changes, m), key) == At(m, key)
  {
    if changes != [] {
      assert changes[0] in changes;
      ApplyMiss(t, schema, changes[1..], ApplyOne(t, schema, changes[0], m), key);
    }
  }

  lemma {:induction false} ApplyHit(t: Tables, schema: nat, changes: seq<Change>, m: Versions, ch: Change)
    requires Distinct(t, schema, changes) && ch in changes
    ensures At(Apply(t, schema, changes, m), ChangeKey(t, schema, ch)) == After(ch)
  {
    var next := ApplyOne(t, schema, changes[0], m);
    if changes[0] == ch {
      ApplyMiss(t, schema, changes[1..], next, ChangeKey(t, schema, ch));
    } else {
      ApplyHit(t, schema, changes[1..], next, ch);
    }
  }

  ghost predicate Apart(t: Tables, schema: nat, ch: Change, s: seq<Change>) {
    forall x :: x in s ==> ChangeKey(t, schema, x) != ChangeKey(t, schema, ch)
  }

  lemma DistinctCons(t: Tables, schema: nat, ch: Change, s: seq<Change>)
    requires Distinct(t, schema, s) && Apart(t, schema, ch, s)
    ensures Distinct(t, schema, [ch] + s)
  {
    assert forall i :: 0 <= i < |s| ==> s[i] in s;
  }

  lemma DistinctHead(t: Tables, schema: nat, s: seq<Change>)
    requires Distinct(t, schema, s) && s != []
    ensures Distinct(t, schema, s[1..]) && Apart(t, schema, s[0], s[1..])
  {}

  lemma {:induction false} InsertDistinct(
    t: Tables, schema: nat, cmp: (Change, Change) -> Order, ch: Change, s: seq<Change>)
    requires Distinct(t, schema, s) && Apart(t, schema, ch, s)
    ensures Distinct(t, schema, Insert(cmp, ch, s))
    ensures forall x :: x in Insert(cmp, ch, s) ==> x == ch || x in s
  {
    if s == [] || !cmp(ch, s[0]).Greater? {
      DistinctCons(t, schema, ch, s);
    } else {
      DistinctHead(t, schema, s);
      assert s[0] in s;
      InsertDistinct(t, schema, cmp, ch, s[1..]);
      DistinctCons(t, schema, s[0], Insert(cmp, ch, s[1..]));
    }
  }

  lemma {:induction false} SortDistinct(t: Tables, schema: nat, cmp: (Change, Change) -> Order, s: seq<Change>)
    requires Distinct(t, schema, s)
    ensures Distinct(t, schema, Sort(cmp, s))
  {
    if s != [] {
      DistinctHead(t, schema, s);
      SortDistinct(t, schema, cmp, s[1..]);
      SortMembers(cmp, s[1..]);
      InsertDistinct(t, schema, cmp, s[0], Sort(cmp, s[1..]));
    }
  }

  // ---------------------------------------------------------------- the delta is what it should be

  /** Every change sits at its pair's key. */
  lemma {:induction false} ChangesKeyed(t: Tables, schema: nat, f: Pair -> Option<Change>, m: seq<Pair>)
    requires Ascending(m) && Filed(t, schema, m)
    requires forall p :: p in m && f(p).Some? ==> f(p).value.entry == p.entry
    ensures Distinct(t, schema, FilterMap(f, m))
  {
    if m != [] {
      var init, p := m[..|m| - 1], m[|m| - 1];
      ChangesKeyed(t, schema, f, init);
      FilterMapMembers(f, init);
      var cs := FilterMap(f, init);
      forall i | 0 <= i < |cs| && f(p).Some?
        ensures ChangeKey(t, schema, cs[i]) != ChangeKey(t, schema, f(p).value)
      {
        assert cs[i] in cs;
        var q :| q in init && f(q) == Some(cs[i]);
        var k :| 0 <= k < |init| && init[k] == q;
        assert m[k] == q && p in m && q in m;
        TextFlip(q.key, p.key);
      }
    }
  }

  /** One snapshot changes each key at most once. */
  lemma ChangesAreDistinct(t: Tables, c: Content, previous: seq<Entry>)
    ensures Distinct(t, c.schema, Difference(t, c, previous))
  {
    var curr, prev := Index(t, c.schema, c.software), Index(t, c.schema, previous);
    IndexIsFiled(t, c.schema, c.software);
    IndexIsFiled(t, c.schema, previous);
    ChangesKeyed(t, c.schema, Upsert(c, prev), curr);
    ChangesKeyed(t, c.schema, Removal(c, curr), prev);
    var a, b := FilterMap(Upsert(c, prev), curr), FilterMap(Removal(c, curr), prev);
    forall x, y | x in a && y in b ensures ChangeKey(t, c.schema, x) != ChangeKey(t, c.schema, y) {
      UpsertAndRemovalDiffer(t, c, curr, prev, x, y);
    }
    assert forall i :: 0 <= i < |a| ==> a[i] in a;
    assert forall i :: 0 <= i < |b| ==> b[i] in b;
    SortDistinct(t, c.schema, ChangeOrder(t), a + b);
  }

  lemma UpsertAndRemovalDiffer(t: Tables, c: Content, curr: seq<Pair>, prev: seq<Pair>, x: Change, y: Change)
    requires Ascending(curr) && Filed(t, c.schema, curr) && Filed(t, c.schema, prev)
    requires x in FilterMap(Upsert(c, prev), curr) && y in FilterMap(Removal(c, curr), prev)
    ensures ChangeKey(t, c.schema, x) != ChangeKey(t, c.schema, y)
  {
    var p := FilterMapOrigin(Upsert(c, prev), curr, x);
    var q := FilterMapOrigin(Removal(c, curr), prev, y);
    LookupOfMember(curr, p);
  }

  /** What applying the delta must leave at a key. */
  function Expected(t: Tables, c: Content, previous: seq<Entry>, key: string): Option<Option<string>> {
    var curr, prev := Lookup(Index(t, c.schema, c.software), key), Lookup(Index(t, c.schema, previous), key);
    var kept := if prev.Some? then Some(prev.value.version) else None;
    if curr.Some? then (if Covered(c, curr.value.source) then Some(curr.value.version) else kept)
    else if prev.Some? && Covered(c, prev.value.source) then None
    else kept
  }

  /** The change the two maps call for at a key. */
  function Wanted(c: Content, curr: seq<Pair>, prev: seq<Pair>, key: string): Option<Change> {
    var now, before := Lookup(curr, key), Lookup(prev, key);
    if now.Some? then Upsert(c, prev)(Pair(key, now.value))
    else if before.Some? then Removal(c, curr)(Pair(key, before.value))
    else None
  }

  lemma WantedIsPresent(t: Tables, c: Content, curr: seq<Pair>, prev: seq<Pair>, key: string)
    requires Filed(t, c.schema, curr) && Filed(t, c.schema, prev) && Wanted(c, curr, prev, key).Some?
    ensures Wanted(c, curr, prev, key).value in Unordered(c, curr, prev)
    ensures ChangeKey(t, c.schema, Wanted(c, curr, prev, key).value) == key
  {
    LookupIsMember(curr, key);
    LookupIsMember(prev, key);
    if Lookup(curr, key).Some? {
      FilterMapMembers(Upsert(c, prev), curr);
    } else {
      FilterMapMembers(Removal(c, curr), prev);
    }
  }

  lemma UpsertIsWanted(t: Tables, c: Content, curr: seq<Pair>, prev: seq<Pair>, ch: Change)
    requires Ascending(curr) && Filed(t, c.schema, curr) && ch in FilterMap(Upsert(c, prev), curr)
    ensures Wanted(c, curr, prev, ChangeKey(t, c.schema, ch)) == Some(ch)
  {
    var p := FilterMapOrigin(Upsert(c, prev), curr, ch);
    LookupOfMember(curr, p);
  }

  lemma RemovalIsWanted(t: Tables, c: Content, curr: seq<Pair>, prev: seq<Pair>, ch: Change)
    requires Ascending(prev) && Filed(t, c.schema, prev) && ch in FilterMap(Removal(c, curr), prev)
    ensures Wanted(c, curr, prev, ChangeKey(t, c.schema, ch)) == Some(ch)
  {
    var p := FilterMapOrigin(Removal(c, curr), prev, ch);
    LookupOfMember(prev, p);
  }

  lemma PresentIsWanted(t: Tables, c: Content, curr: seq<Pair>, prev: seq<Pair>, ch: Change)
    requires Ascending(curr) && Filed(t, c.schema, curr) && Ascending(prev) && Filed(t, c.schema, prev)
    requires ch in Unordered(c, curr, prev)
    ensures Wanted(c, curr, prev, ChangeKey(t, c.schema, ch)) == Some(ch)
  {
    if ch in FilterMap(Upsert(c, prev), curr) {
      UpsertIsWanted(t, c, curr, prev, ch);
    } else {
      RemovalIsWanted(t, c, curr, prev, ch);
    }
  }

  /** Applied to what was stored before, the delta leaves at every key the current version where the
      current snapshot speaks for the row's source, and what was there before elsewhere. */
  lemma DeltaApplies(t: Tables, c: Content, previous: seq<Entry>, key: string)
    ensures At(Apply(t, c.schema, Difference(t, c, previous), Stored(t, c.schema, previous)), key)
            == Expected(t, c, previous, key)
  {
    var curr, prev := Index(t, c.schema, c.software), Index(t, c.schema, previous);
    var changes, before := Difference(t, c, previous), Stored(t, c.schema, previous);
    StoredAt(prev, key);
    DeltaHasWanted(t, c, previous, key);
    if Wanted(c, curr, prev, key).Some? {
      ChangesAreDistinct(t, c, previous);
      ApplyHit(t, c.schema, changes, before, Wanted(c, curr, prev, key).value);
    } else {
      ApplyMiss(t, c.schema, changes, before, key);
    }
  }

  /** The delta has at each key the wanted change and nothing else. */
  lemma DeltaHasWanted(t: Tables, c: Content, previous: seq<Entry>, key: string)
    ensures var wanted := Wanted(c, Index(t, c.schema, c.software), Index(t, c.schema, previous), key);
            && (wanted.Some? ==> && wanted.value in Difference(t, c, previous)
                                 && ChangeKey(t, c.schema, wanted.value) == key)
            && (wanted.None? ==> forall ch :: ch in Difference(t, c, previous) ==> ChangeKey(t, c.schema, ch) != key)
  {
    var curr, prev := Index(t, c.schema, c.software), Index(t, c.schema, previous);
    IndexIsFiled(t, c.schema, c.software);
    IndexIsFiled(t, c.schema, previous);
    SortMembers(ChangeOrder(t), Unordered(c, curr, prev));
    if Wanted(c, curr, prev, key).Some? {
      WantedIsPresent(t, c, curr, prev, key);
    } else {
      forall ch | ch in Unordered(c, curr, prev) ensures ChangeKey(t, c.schema, ch) != key {
        PresentIsWanted(t, c, curr, prev, ch);
      }
    }
  }

  // ---------------------------------------------------------------- normalized snapshots

  /** Rows of the current schema carry the identity their own fields give. */
  ghost predicate Canonical(t: Tables, schema: nat, rows: seq<Entry>) {
    schema == SCHEMA ==> forall e :: e in rows ==> Fixed(t, e) && PartsFit(t, e)
  }

  lemma PreparedIsFixed(t: Tables, agent: string, rows: seq<Entry>, e: Entry)
    requires t.Sane() && e in Prepared(t, SCHEMA, agent, rows)
    ensures Fixed(t, e)
  {
    var k :| 0 <= k < |rows| && e == Prepared(t, SCHEMA, agent, rows)[k];
    IdentifyIdempotent(t, agent, NormalEntry(t, rows[k]));
  }

  lemma NormalizedIsCanonical(t: Tables, c: Content)
    requires t.Sane() && forall e :: e in Normalized(t, c).software ==> PartsFit(t, e)
    ensures Canonical(t, c.schema, Normalized(t, c).software)
  {
    if c.schema == SCHEMA {
      forall e | e in Normalized(t, c).software ensures Fixed(t, e) {
        NormalizeKeepsNewest(t, c);
        PreparedIsFixed(t, c.agent, c.software, e);
      }
    }
  }

  lemma SourceOfKey(t: Tables, schema: nat, a: Entry, b: Entry)
    requires t.CollisionFree()
    requires Canonical(t, schema, [a]) && Canonical(t, schema, [b])
    requires IdentityKey(t, schema, a) == IdentityKey(t, schema, b)
    ensures a.source == b.source
  {
    assert a in [a] && b in [b];
    if schema == SCHEMA {
      FixedFields(t, a);
      FixedFields(t, b);
      IdentityDetermines(t, a, b);
    } else {
      KeyDeterminesSource(t, a, b);
    }
  }

  /** Some report says that the source was collected completely. */
  ghost predicate CompletelyReported(sources: seq<SourceReport>, source: Source) {
    exists i :: 0 <= i < |sources| && sources[i].source == source && sources[i].status == Complete
  }

  lemma CoveredMeans(c: Content, source: Source)
    ensures Covered(c, source) <==> c.schema != SCHEMA || CompletelyReported(c.sources, source)
  {
    if c.schema == SCHEMA && Covered(c, source) {
      var r :| r in c.sources && r.source == source && r.status.Complete?;
      var i :| 0 <= i < |c.sources| && c.sources[i] == r;
    }
  }

  /** In the current schema a delta says nothing about a source that no report calls complete: a partial or
      failed scan removes, adds and modifies nothing there. */
  lemma {:induction false} IncompleteSourceUntouched(t: Tables, c: Content, previous: seq<Entry>, ch: Change)
    requires c.schema == SCHEMA && ch in Difference(t, c, previous)
    ensures exists i :: 0 <= i < |c.sources| && c.sources[i].source == ch.entry.source
                        && c.sources[i].status == Complete
  {
    var curr, prev := Index(t, c.schema, c.software), Index(t, c.schema, previous);
    SortMembers(ChangeOrder(t), Unordered(c, curr, prev));
    if ch in FilterMap(Upsert(c, prev), curr) {
      var p := FilterMapOrigin(Upsert(c, prev), curr, ch);
    } else {
      var p := FilterMapOrigin(Removal(c, curr), prev, ch);
    }
    CoveredMeans(c, ch.entry.source);
  }

  /** What rows leave at a key: the version of the last row that has it. */
  lemma {:induction false} StoredIsLastRow(t: Tables, schema: nat, rows: seq<Entry>, key: string, i: nat)
    requires i < |rows| && IdentityKey(t, schema, rows[i]) == key
    requires forall j :: i < j < |rows| ==> IdentityKey(t, schema, rows[j]) != key
    ensures At(Stored(t, schema, rows), key) == Some(rows[i].version)
  {
    StoredAt(Index(t, schema, rows), key);
    LastRowIndexed(t, schema, rows, key, i);
  }

  lemma {:induction false} LastRowIndexed(t: Tables, schema: nat, rows: seq<Entry>, key: string, i: nat)
    requires i < |rows| && IdentityKey(t, schema, rows[i]) == key
    requires forall j :: i < j < |rows| ==> IdentityKey(t, schema, rows[j]) != key
    ensures Lookup(Index(t, schema, rows), key) == Some(rows[i])
  {
    var n := |rows| - 1;
    PutFinds(Index(t, schema, rows[..n]), IdentityKey(t, schema, rows[n]), rows[n], key);
    if i < n {
      LastRowIndexed(t, schema, rows[..n], key, i);
    }
  }

  lemma {:induction false} NoRowNothingStored(t: Tables, schema: nat, rows: seq<Entry>, key: string)
    requires forall e :: e in rows ==> IdentityKey(t, schema, e) != key
    ensures At(Stored(t, schema, rows), key).None? && Lookup(Index(t, schema, rows), key).None?
  {
    StoredAt(Index(t, schema, rows), key);
    if rows != [] {
      var n := |rows| - 1;
      NoRowNothingStored(t, schema, rows[..n], key);
      PutFinds(Index(t, schema, rows[..n]), IdentityKey(t, schema, rows[n]), rows[n], key);
    }
  }

  /** The receiver ends up with the current snapshot on every source collected completely and with the
      previous one on all others: `e` is any row of either. */
  lemma {:induction false} DeltaRebuildsBySource(t: Tables, c: Content, previous: seq<Entry>, e: Entry)
    requires t.CollisionFree()
    requires Canonical(t, c.schema, c.software) && Canonical(t, c.schema, previous)
    requires e in c.software || e in previous
    ensures var key := IdentityKey(t, c.schema, e);
            At(Apply(t, c.schema, Difference(t, c, previous), Stored(t, c.schema, previous)), key)
            == At(Stored(t, c.schema, if c.schema == SCHEMA && !CompletelyReported(c.sources, e.source) then previous
                                      else c.software), key)
  {
    var key := IdentityKey(t, c.schema, e);
    var curr, prev := Index(t, c.schema, c.software), Index(t, c.schema, previous);
    CoveredMeans(c, e.source);
    DeltaApplies(t, c, previous, key);
    StoredAt(curr, key);
    StoredAt(prev, key);
    SameSource(t, c.schema, c.software, e, key);
    SameSource(t, c.schema, previous, e, key);
    IndexIsFiled(t, c.schema, c.software);
    IndexIsFiled(t, c.schema, previous);
  }

  lemma SameSource(t: Tables, schema: nat, rows: seq<Entry>, e: Entry, key: string)
    requires t.CollisionFree() && Canonical(t, schema, rows) && Canonical(t, schema, [e])
    requires key == IdentityKey(t, schema, e)
    ensures Lookup(Index(t, schema, rows), key).Some? ==> Lookup(Index(t, schema, rows), key).value.source == e.source
  {
    var m := Index(t, schema, rows);
    LookupIsMember(m, key);
    IndexIsFiled(t, schema, rows);
    if Lookup(m, key).Some? {
      SourceOfKey(t, schema, Lookup(m, key).value, e);
    }
  }

  /** In the old schema the receiver ends up with exactly the current snapshot. */
  lemma {:induction false} LegacyDeltaRebuilds(t: Tables, c: Content, previous: seq<Entry>)
    requires c.schema != SCHEMA
    ensures Apply(t, c.schema, Difference(t, c, previous), Stored(t, c.schema, previous))
            == Stored(t, c.schema, c.software)
  {
    var result, goal := Apply(t, c.schema, Difference(t, c, previous), Stored(t, c.schema, previous)),
                        Stored(t, c.schema, c.software);
    forall key: string ensures At(result, key) == At(goal, key) {
      DeltaApplies(t, c, previous, key);
      StoredAt(Index(t, c.schema, c.software), key);
    }
    forall key: string ensures key in result <==> key in goal { assert At(result, key) == At(goal, key); }
    forall key | key in result ensures result[key] == goal[key] { assert At(result, key) == At(goal, key); }
  }

  /** The delta says nothing idle: what it adds was absent, what it modifies had another version, what it
      removes was present and is gone, and each change carries the version it replaces. */
  lemma DeltaIsMinimal(t: Tables, c: Content, previous: seq<Entry>, ch: Change)
    requires ch in Difference(t, c, previous)
    ensures var key := ChangeKey(t, c.schema, ch);
            var before := At(Stored(t, c.schema, previous), key);
            && After(ch) != before
            && (ch.action.Added? <==> before.None?)
            && (before.Some? ==> ch.previousVersion == before.value)
            && (ch.action.Removed? <==> At(Stored(t, c.schema, c.software), key).None?)
  {
    var curr, prev := Index(t, c.schema, c.software), Index(t, c.schema, previous);
    IndexIsFiled(t, c.schema, c.software);
    IndexIsFiled(t, c.schema, previous);
    SortMembers(ChangeOrder(t), Unordered(c, curr, prev));
    StoredAt(prev, ChangeKey(t, c.schema, ch));
    StoredAt(curr, ChangeKey(t, c.schema, ch));
    PresentIsWanted(t, c, curr, prev, ch);
  }

  /** The changes come in the order of their comparison keys. */
  lemma ChangesAreSorted(t: Tables, c: Content, previous: seq<Entry>)
    ensures var changes := Difference(t, c, previous);
            forall i, j :: 0 <= i < j < |changes| ==>
              !CompareText(ComparisonKey(t, changes[i].entry), ComparisonKey(t, changes[j].entry)).Greater?
  {
    var cmp := ChangeOrder(t);
    forall a: Change, b: Change ensures cmp(b, a) == cmp(a, b).Flip() {
      TextFlip(ComparisonKey(t, a.entry), ComparisonKey(t, b.entry));
    }
    forall a: Change, b: Change, d: Change ensures Chains(cmp(a, b), cmp(b, d), cmp(a, d)) {
      TextChains(ComparisonKey(t, a.entry), ComparisonKey(t, b.entry), ComparisonKey(t, d.entry));
    }
    SortSorted(cmp, Unordered(c, Index(t, c.schema, c.software), Index(t, c.schema, previous)));
  }
}
