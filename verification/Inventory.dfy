/** The inventory snapshot, its canonical form under both schemas and the legacy conversion. */
module Inventory {
  import opened Options
  import opened Ordering
  import opened Sorting
  import opened VersionOrder
  import opened TextForm
  import opened Identity

  const SCHEMA := 2
  const LEGACY_SCHEMA := 1

  datatype IdentifierType = MacHash | SerialHash | BiosUuidHash | TpmEkHash {
    function Rank(): nat {
      match this
      case MacHash => 0
      case SerialHash => 1
      case BiosUuidHash => 2
      case TpmEkHash => 3
    }
  }

  datatype Identifier = Identifier(kind: IdentifierType, valueHash: string)

  datatype Status = Complete | Partial | Failed | NotApplicable

  datatype SourceReport = SourceReport(source: Source, status: Status, collectedAt: string,
                                       lastCompleteAt: Option<string>, diagnostic: Option<string>)

  datatype Warning =
    | Collected(text: string)
    | Duplicate(name: string, key: string, kept: Option<string>, dropped: Option<string>)
    | Conflict(identity: string)

  datatype Content = Content(schema: nat, agent: string, identifiers: seq<Identifier>, software: seq<Entry>,
                             warnings: seq<Warning>, sources: seq<SourceReport>)

  // ---------------------------------------------------------------- what the loops compute

  function SourceRank(s: Source): nat {
    match s
    case Apt => 0 case Dpkg => 1 case Rpm => 2 case Winreg => 3 case Msi => 4 case Brew => 5 case Pip => 6
    case Npm => 7 case Java => 8 case Kb => 9 case Pacman => 10 case MacBundle => 11 case Other => 12
  }

  predicate Blank(u: Unicode, s: string) { forall i :: 0 <= i < |s| ==> u.white(s[i]) }

  function CompareIdentifiers(a: Identifier, b: Identifier): Order {
    CompareInt(a.kind.Rank(), b.kind.Rank()).Then(CompareText(a.valueHash, b.valueHash))
  }

  function CompareReports(a: SourceReport, b: SourceReport): Order {
    CompareInt(SourceRank(a.source), SourceRank(b.source))
  }

  /** The key rows are grouped by: the installation in the current schema, the product otherwise. */
  function IdentityKey(t: Tables, schema: nat, e: Entry): string {
    if schema == SCHEMA && e.installationIdentity.Some? then e.installationIdentity.value else ComparisonKey(t, e)
  }

  /** By key, newest version first. */
  function CompareRows(t: Tables, schema: nat, a: Entry, b: Entry): Order {
    CompareText(IdentityKey(t, schema, a), IdentityKey(t, schema, b))
      .Then(Compare(t.unicode, b.version, a.version))
  }

  function RowOrder(t: Tables, schema: nat): (Entry, Entry) -> Order {
    (a: Entry, b: Entry) => CompareRows(t, schema, a, b)
  }

  function Identifiers(u: Unicode, ids: seq<Identifier>): seq<Identifier> {
    Dedup(Sort(CompareIdentifiers, Filter((i: Identifier) => !Blank(u, i.valueHash), ids)))
  }

  function Prepare(t: Tables, schema: nat, agent: string, e: Entry): Entry {
    if schema == SCHEMA then Identify(t, agent, NormalEntry(t, e)) else NormalEntry(t, e)
  }

  function Prepared(t: Tables, schema: nat, agent: string, rows: seq<Entry>): (r: seq<Entry>)
    ensures |r| == |rows| && forall i :: 0 <= i < |r| ==> r[i] == Prepare(t, schema, agent, rows[i])
  {
    seq(|rows|, i requires 0 <= i < |rows| => Prepare(t, schema, agent, rows[i]))
  }

  function Named(rows: seq<Entry>): seq<Entry> {
    Filter((e: Entry) => e.name != "", rows)
  }

  function Ordered(t: Tables, schema: nat, agent: string, rows: seq<Entry>): seq<Entry> {
    Sort(RowOrder(t, schema), Named(Prepared(t, schema, agent, rows)))
  }

  predicate Repeats(t: Tables, schema: nat, kept: seq<Entry>, e: Entry) {
    kept != [] && IdentityKey(t, schema, kept[|kept| - 1]) == IdentityKey(t, schema, e)
  }

  /** The first row of every group of equal keys. */
  function Survivors(t: Tables, schema: nat, rows: seq<Entry>): seq<Entry> {
    if rows == [] then []
    else
      var kept := Survivors(t, schema, rows[..|rows| - 1]);
      if Repeats(t, schema, kept, rows[|rows| - 1]) then kept else kept + [rows[|rows| - 1]]
  }

  function Complaint(t: Tables, schema: nat, last: Entry, e: Entry): seq<Warning> {
    if schema == SCHEMA then
      if last.version != e.version then [Conflict(GetOr(e.installationIdentity, "unknown"))] else []
    else [Duplicate(e.name, ComparisonKey(t, e), last.version, e.version)]
  }

  /** One warning for every dropped row; in the current schema only when its version differs. */
  function Complaints(t: Tables, schema: nat, rows: seq<Entry>): seq<Warning> {
    if rows == [] then []
    else
      var kept := Survivors(t, schema, rows[..|rows| - 1]);
      Complaints(t, schema, rows[..|rows| - 1])
      + if Repeats(t, schema, kept, rows[|rows| - 1])
        then Complaint(t, schema, kept[|kept| - 1], rows[|rows| - 1]) else []
  }

  /** One more row. */
  lemma GroupNext(t: Tables, schema: nat, rows: seq<Entry>, i: nat, kept: seq<Entry>, added: seq<Warning>)
    requires i < |rows| && kept == Survivors(t, schema, rows[..i]) && added == Complaints(t, schema, rows[..i])
    ensures if Repeats(t, schema, kept, rows[i]) then
              && kept == Survivors(t, schema, rows[..i + 1])
              && added + Complaint(t, schema, kept[|kept| - 1], rows[i]) == Complaints(t, schema, rows[..i + 1])
            else
              && kept + [rows[i]] == Survivors(t, schema, rows[..i + 1])
              && added == Complaints(t, schema, rows[..i + 1])
  {
    var next := rows[..i + 1];
    assert next[..|next| - 1] == rows[..i] && next[|next| - 1] == rows[i];
  }

  function Normalized(t: Tables, c: Content): Content {
    var rows := Ordered(t, c.schema, c.agent, c.software);
    c.(identifiers := Identifiers(t.unicode, c.identifiers),
       software := Survivors(t, c.schema, rows),
       warnings := c.warnings + Complaints(t, c.schema, rows),
       sources := if c.schema == SCHEMA then Sort(CompareReports, c.sources) else c.sources)
  }

  /** An entry as an old server knows it. */
  function Legacy(e: Entry): Entry {
    e.(source := if e.source.Pacman? || e.source.MacBundle? then Other else e.source,
       productIdentity := None, installationIdentity := None, packageId := None, scope := None, instanceId := None)
  }

  function Legacies(rows: seq<Entry>): (r: seq<Entry>)
    ensures |r| == |rows| && forall i :: 0 <= i < |r| ==> r[i] == Legacy(rows[i])
  {
    seq(|rows|, i requires 0 <= i < |rows| => Legacy(rows[i]))
  }

  // ---------------------------------------------------------------- the snapshot

  class Snapshot {
    const tables: Tables
    const agent: string
    var schema: nat
    var identifiers: seq<Identifier>
    var software: seq<Entry>
    var warnings: seq<Warning>
    var sources: seq<SourceReport>

    ghost function View(): Content
      reads this
    {
      Content(schema, agent, identifiers, software, warnings, sources)
    }

    constructor (tables: Tables, c: Content)
      ensures View() == Normalized(tables, c) && this.tables == tables
    {
      this.tables, agent, schema := tables, c.agent, c.schema;
      identifiers, software, warnings, sources := c.identifiers, c.software, c.warnings, c.sources;
      new;
      Normalize();
    }

    method Normalize()
      modifies this
      ensures View() == Normalized(tables, old(View()))
    {
      var u := tables.unicode;
      identifiers := Filter((i: Identifier) => !Blank(u, i.valueHash), identifiers);
      identifiers := Dedup(Sort(CompareIdentifiers, identifiers));
      NormalizeEntries();
      if schema == SCHEMA {
        IdentifyEntries();
        sources := Sort(CompareReports, sources);
      }
      assert software == Prepared(tables, schema, agent, old(software));
      software := Sort(RowOrder(tables, schema), Named(software));
      DeduplicateSoftware();
    }

    method NormalizeEntries()
      modifies `software
      ensures |software| == |old(software)|
      ensures forall i :: 0 <= i < |software| ==> software[i] == NormalEntry(tables, old(software)[i])
    {
      for i := 0 to |software|
        invariant |software| == |old(software)|
        invariant forall k :: 0 <= k < i ==> software[k] == NormalEntry(tables, old(software)[k])
        invariant forall k :: i <= k < |software| ==> software[k] == old(software)[k]
      {
        software := software[i := NormalEntry(tables, software[i])];
      }
    }

    method IdentifyEntries()
      modifies `software
      ensures |software| == |old(software)|
      ensures forall i :: 0 <= i < |software| ==> software[i] == Identify(tables, agent, old(software)[i])
    {
      for i := 0 to |software|
        invariant |software| == |old(software)|
        invariant forall k :: 0 <= k < i ==> software[k] == Identify(tables, agent, old(software)[k])
        invariant forall k :: i <= k < |software| ==> software[k] == old(software)[k]
      {
        var entry := software[i];
        if entry.installationIdentity.None? {
          entry := EnsureIdentity(tables, entry);
          var instance := HashIdentity(tables, [ENDPOINT_LABEL, agent, GetOr(entry.instanceId, "")]);
          entry := entry.(instanceId := Some(instance));
        }
        software := software[i := EnsureIdentity(tables, entry)];
      }
    }

    method DeduplicateSoftware()
      modifies `software, `warnings
      ensures software == Survivors(tables, schema, old(software))
      ensures warnings == old(warnings) + Complaints(tables, schema, old(software))
    {
      var kept: seq<Entry>, added: seq<Warning> := [], [];
      var i := 0;
      while i < |software|
        invariant 0 <= i <= |software| && software == old(software) && warnings == old(warnings)
        invariant kept == Survivors(tables, schema, software[..i])
        invariant added == Complaints(tables, schema, software[..i])
      {
        var entry := software[i];
        GroupNext(tables, schema, software, i, kept, added);
        if kept != [] && IdentityKey(tables, schema, kept[|kept| - 1]) == IdentityKey(tables, schema, entry) {
          added := added + Complaint(tables, schema, kept[|kept| - 1], entry);
        } else {
          kept := kept + [entry];
        }
        i := i + 1;
      }
      assert software[..i] == software;
      software := kept;
      warnings := warnings + added;
    }

    /** Consumes the snapshot into the wire shape of an old server. */
    method IntoV1()
      modifies this
      ensures View() == Normalized(tables, old(View()).(schema := LEGACY_SCHEMA, sources := [],
                                                        software := Legacies(old(software))))
    {
      schema := LEGACY_SCHEMA;
      sources := [];
      for i := 0 to |software|
        invariant schema == LEGACY_SCHEMA && sources == []
        invariant identifiers == old(identifiers) && warnings == old(warnings)
        invariant |software| == |old(software)|
        invariant forall k :: 0 <= k < i ==> software[k] == Legacy(old(software)[k])
        invariant forall k :: i <= k < |software| ==> software[k] == old(software)[k]
      {
        software := software[i := Legacy(software[i])];
      }
      assert software == Legacies(old(software));
      Normalize();
    }
  }

  // ---------------------------------------------------------------- orders

  lemma RowFlip(t: Tables, schema: nat, a: Entry, b: Entry)
    ensures CompareRows(t, schema, b, a) == CompareRows(t, schema, a, b).Flip()
  {
    TextFlip(IdentityKey(t, schema, a), IdentityKey(t, schema, b));
    CompareFlip(t.unicode, a.version, b.version);
  }

  lemma RowChains(t: Tables, schema: nat, a: Entry, b: Entry, c: Entry)
    ensures Chains(CompareRows(t, schema, a, b), CompareRows(t, schema, b, c), CompareRows(t, schema, a, c))
  {
    TextChains(IdentityKey(t, schema, a), IdentityKey(t, schema, b), IdentityKey(t, schema, c));
    CompareChains(t.unicode, c.version, b.version, a.version);
    RowFlip(t, schema, a, b);
    RowFlip(t, schema, b, c);
    RowFlip(t, schema, a, c);
    CompareFlip(t.unicode, a.version, b.version);
    CompareFlip(t.unicode, b.version, c.version);
    CompareFlip(t.unicode, a.version, c.version);
  }

  /** The sort order of rows is a total preorder, so sorting is well defined. */
  lemma RowsAreOrdered(t: Tables, schema: nat)
    ensures Preorder(RowOrder(t, schema))
  {
    var cmp := RowOrder(t, schema);
    forall a: Entry, b: Entry ensures cmp(b, a) == cmp(a, b).Flip() { RowFlip(t, schema, a, b); }
    forall a: Entry, b: Entry, c: Entry ensures Chains(cmp(a, b), cmp(b, c), cmp(a, c)) {
      RowChains(t, schema, a, b, c);
    }
  }

  lemma IdentifiersAreOrdered()
    ensures Preorder(CompareIdentifiers)
  {
    forall a: Identifier, b: Identifier
      ensures CompareIdentifiers(b, a) == CompareIdentifiers(a, b).Flip()
    {
      TextFlip(a.valueHash, b.valueHash);
    }
    forall a: Identifier, b: Identifier, c: Identifier
      ensures Chains(CompareIdentifiers(a, b), CompareIdentifiers(b, c), CompareIdentifiers(a, c))
    {
      TextChains(a.valueHash, b.valueHash, c.valueHash);
    }
  }

  lemma ReportsAreOrdered()
    ensures Preorder(CompareReports)
  {}

  // ---------------------------------------------------------------- survivors

  ghost predicate KeysIncrease(t: Tables, schema: nat, rows: seq<Entry>) {
    forall i, j :: 0 <= i < j < |rows| ==>
      CompareText(IdentityKey(t, schema, rows[i]), IdentityKey(t, schema, rows[j])).Less?
  }

  /** `y` stands for `x`: same key, and a version `x` does not exceed. */
  ghost predicate StandsFor(t: Tables, schema: nat, y: Entry, x: Entry) {
    && IdentityKey(t, schema, y) == IdentityKey(t, schema, x)
    && !Compare(t.unicode, x.version, y.version).Greater?
  }

  ghost predicate Represents(t: Tables, schema: nat, kept: seq<Entry>, x: Entry) {
    exists y :: y in kept && StandsFor(t, schema, y, x)
  }

  lemma {:induction false} SurvivorsAreRows(t: Tables, schema: nat, rows: seq<Entry>)
    ensures forall x :: x in Survivors(t, schema, rows) ==> x in rows
    ensures rows != [] ==> Survivors(t, schema, rows) != []
  {
    if rows != [] {
      SurvivorsAreRows(t, schema, rows[..|rows| - 1]);
    }
  }

  lemma {:induction false} SurvivorKeysIncrease(t: Tables, schema: nat, rows: seq<Entry>)
    requires Sorted(RowOrder(t, schema), rows)
    ensures KeysIncrease(t, schema, Survivors(t, schema, rows))
  {
    if rows != [] {
      var n := |rows| - 1;
      SurvivorKeysIncrease(t, schema, rows[..n]);
      SurvivorsAreRows(t, schema, rows[..n]);
      var kept := Survivors(t, schema, rows[..n]);
      if !Repeats(t, schema, kept, rows[n]) && kept != [] {
        var last := kept[|kept| - 1];
        forall i | 0 <= i < |kept|
          ensures CompareText(IdentityKey(t, schema, kept[i]), IdentityKey(t, schema, rows[n])).Less?
        {
          assert last in rows[..n];
          assert !RowOrder(t, schema)(last, rows[n]).Greater?;
          TextFlip(IdentityKey(t, schema, last), IdentityKey(t, schema, rows[n]));
          TextChains(IdentityKey(t, schema, kept[i]), IdentityKey(t, schema, last), IdentityKey(t, schema, rows[n]));
        }
      }
    }
  }

  lemma RepresentsGrows(t: Tables, schema: nat, kept: seq<Entry>, more: seq<Entry>, x: Entry)
    requires Represents(t, schema, kept, x)
    ensures Represents(t, schema, kept + more, x)
  {
    var y :| y in kept && StandsFor(t, schema, y, x);
    assert y in kept + more;
  }

  /** The newest row of a group comes first, so it stands for a later one. */
  lemma FirstStands(t: Tables, schema: nat, last: Entry, e: Entry)
    requires IdentityKey(t, schema, last) == IdentityKey(t, schema, e)
    requires !CompareRows(t, schema, last, e).Greater?
    ensures StandsFor(t, schema, last, e)
  {
    TextFlip(IdentityKey(t, schema, last), IdentityKey(t, schema, e));
  }

  lemma {:induction false} SurvivorsRepresent(t: Tables, schema: nat, rows: seq<Entry>)
    requires Sorted(RowOrder(t, schema), rows)
    ensures forall x :: x in rows ==> Represents(t, schema, Survivors(t, schema, rows), x)
  {
    if rows != [] {
      var init, e := rows[..|rows| - 1], rows[|rows| - 1];
      SurvivorsRepresent(t, schema, init);
      LastRepresented(t, schema, rows);
      forall x | x in rows ensures Represents(t, schema, Survivors(t, schema, rows), x) {
        if x != e {
          assert x in init;
          RepresentsGrows(t, schema, Survivors(t, schema, init), [e], x);
        }
      }
    }
  }

  lemma LastRepresented(t: Tables, schema: nat, rows: seq<Entry>)
    requires rows != [] && Sorted(RowOrder(t, schema), rows)
    ensures Represents(t, schema, Survivors(t, schema, rows), rows[|rows| - 1])
  {
    var init, e := rows[..|rows| - 1], rows[|rows| - 1];
    var kept := Survivors(t, schema, init);
    SurvivorsAreRows(t, schema, init);
    if Repeats(t, schema, kept, e) {
      var last := kept[|kept| - 1];
      assert last in init;
      assert !RowOrder(t, schema)(last, e).Greater?;
      FirstStands(t, schema, last, e);
      assert last in kept;
    } else {
      CompareFlip(t.unicode, e.version, e.version);
      assert e in kept + [e] && StandsFor(t, schema, e, e);
    }
  }

  lemma LastOpensGroup(t: Tables, schema: nat, rows: seq<Entry>)
    requires KeysIncrease(t, schema, rows) && rows != []
    ensures KeysIncrease(t, schema, rows[..|rows| - 1])
    ensures !Repeats(t, schema, rows[..|rows| - 1], rows[|rows| - 1])
    ensures rows[..|rows| - 1] + [rows[|rows| - 1]] == rows
  {
    var n := |rows| - 1;
    if n > 0 {
      TextFlip(IdentityKey(t, schema, rows[n - 1]), IdentityKey(t, schema, rows[n]));
    }
  }

  lemma {:induction false} SurvivorsFixed(t: Tables, schema: nat, rows: seq<Entry>)
    requires KeysIncrease(t, schema, rows)
    ensures Survivors(t, schema, rows) == rows && Complaints(t, schema, rows) == []
  {
    if rows != [] {
      LastOpensGroup(t, schema, rows);
      SurvivorsFixed(t, schema, rows[..|rows| - 1]);
    }
  }

  /** An old schema drops exactly as many rows as it warns about. */
  lemma {:induction false} LegacyCounts(t: Tables, schema: nat, rows: seq<Entry>)
    requires schema != SCHEMA
    ensures |Survivors(t, schema, rows)| + |Complaints(t, schema, rows)| == |rows|
  {
    if rows != [] {
      LegacyCounts(t, schema, rows[..|rows| - 1]);
    }
  }

  lemma OrderedMembers(t: Tables, schema: nat, agent: string, rows: seq<Entry>)
    ensures Sorted(RowOrder(t, schema), Ordered(t, schema, agent, rows))
    ensures forall e :: e in Ordered(t, schema, agent, rows) <==> e in Named(Prepared(t, schema, agent, rows))
    ensures forall e :: e in Ordered(t, schema, agent, rows) <==> e in Prepared(t, schema, agent, rows) && e.name != ""
    ensures |Ordered(t, schema, agent, rows)| == |Named(Prepared(t, schema, agent, rows))|
  {
    RowsAreOrdered(t, schema);
    var named := Named(Prepared(t, schema, agent, rows));
    SortSorted(RowOrder(t, schema), named);
    SortMembers(RowOrder(t, schema), named);
    FilterMembers((e: Entry) => e.name != "", Prepared(t, schema, agent, rows));
  }

  /** Normalization leaves strictly increasing keys, keeps only prepared rows with a name, and keeps for
      every one of them a row of its key whose version it does not exceed. */
  lemma NormalizeKeepsNewest(t: Tables, c: Content)
    ensures KeysIncrease(t, c.schema, Normalized(t, c).software)
    ensures forall e :: e in Normalized(t, c).software ==>
              e in Prepared(t, c.schema, c.agent, c.software) && e.name != ""
    ensures forall e :: e in Prepared(t, c.schema, c.agent, c.software) && e.name != "" ==>
              Represents(t, c.schema, Normalized(t, c).software, e)
  {
    var rows := Ordered(t, c.schema, c.agent, c.software);
    OrderedMembers(t, c.schema, c.agent, c.software);
    SurvivorKeysIncrease(t, c.schema, rows);
    SurvivorsRepresent(t, c.schema, rows);
    SurvivorsAreRows(t, c.schema, rows);
  }

  /** In an old schema the dropped rows are exactly the new warnings, and no key is lost. */
  lemma LegacyDropsAreWarned(t: Tables, c: Content)
    requires c.schema != SCHEMA
    ensures |Normalized(t, c).software| + |Normalized(t, c).warnings| - |c.warnings|
            == |Named(Prepared(t, c.schema, c.agent, c.software))|
    ensures forall e :: e in Prepared(t, c.schema, c.agent, c.software) && e.name != "" ==>
              exists y :: y in Normalized(t, c).software && ComparisonKey(t, y) == ComparisonKey(t, e)
  {
    OrderedMembers(t, c.schema, c.agent, c.software);
    LegacyCounts(t, c.schema, Ordered(t, c.schema, c.agent, c.software));
    NormalizeKeepsNewest(t, c);
    forall e | e in Prepared(t, c.schema, c.agent, c.software) && e.name != ""
      ensures exists y :: y in Normalized(t, c).software && ComparisonKey(t, y) == ComparisonKey(t, e)
    {
      var y :| y in Normalized(t, c).software && StandsFor(t, c.schema, y, e);
    }
  }

  // ---------------------------------------------------------------- when the current schema complains

  predicate Clash(t: Tables, x: Entry, y: Entry, id: string) {
    IdentityKey(t, SCHEMA, x) == id == IdentityKey(t, SCHEMA, y) && x.version != y.version
  }

  /** Some row's version differs from the version kept for its installation. */
  ghost predicate Disputed(t: Tables, kept: seq<Entry>, rows: seq<Entry>, id: string) {
    exists x, y :: x in kept && y in rows && Clash(t, x, y, id)
  }

  lemma ComplaintIn(t: Tables, rows: seq<Entry>, id: string)
    requires rows != [] && rows[|rows| - 1].installationIdentity.Some?
    requires Repeats(t, SCHEMA, Survivors(t, SCHEMA, rows[..|rows| - 1]), rows[|rows| - 1])
    ensures var init, e := rows[..|rows| - 1], rows[|rows| - 1];
            var kept := Survivors(t, SCHEMA, init);
            && Survivors(t, SCHEMA, rows) == kept
            && (Conflict(id) in Complaints(t, SCHEMA, rows) <==>
                Conflict(id) in Complaints(t, SCHEMA, init)
                || (IdentityKey(t, SCHEMA, e) == id && kept[|kept| - 1].version != e.version))
  {}

  lemma ComplaintAtRepeat(t: Tables, rows: seq<Entry>, id: string)
    requires rows != [] && rows[|rows| - 1].installationIdentity.Some?
    requires Sorted(RowOrder(t, SCHEMA), rows[..|rows| - 1])
    requires Repeats(t, SCHEMA, Survivors(t, SCHEMA, rows[..|rows| - 1]), rows[|rows| - 1])
    requires var init := rows[..|rows| - 1];
             Conflict(id) in Complaints(t, SCHEMA, init) <==> Disputed(t, Survivors(t, SCHEMA, init), init, id)
    ensures Conflict(id) in Complaints(t, SCHEMA, rows) <==>
            Disputed(t, Survivors(t, SCHEMA, rows), rows[..|rows| - 1] + [rows[|rows| - 1]], id)
  {
    var init, e := rows[..|rows| - 1], rows[|rows| - 1];
    ComplaintIn(t, rows, id);
    SurvivorKeysIncrease(t, SCHEMA, init);
    DisputeAtRepeat(t, Survivors(t, SCHEMA, init), init, e, id);
  }

  lemma {:induction false} ComplaintAtNew(t: Tables, rows: seq<Entry>, id: string)
    requires rows != [] && Sorted(RowOrder(t, SCHEMA), rows)
    requires !Repeats(t, SCHEMA, Survivors(t, SCHEMA, rows[..|rows| - 1]), rows[|rows| - 1])
    ensures var init, e := rows[..|rows| - 1], rows[|rows| - 1];
            var kept := Survivors(t, SCHEMA, init);
            && Survivors(t, SCHEMA, rows) == kept + [e]
            && Complaints(t, SCHEMA, rows) == Complaints(t, SCHEMA, init)
            && (Disputed(t, kept + [e], init + [e], id) <==> Disputed(t, kept, init, id))
  {
    var init, e := rows[..|rows| - 1], rows[|rows| - 1];
    NewKey(t, rows);
    SurvivorsAreRows(t, SCHEMA, init);
    DisputeAtNew(t, Survivors(t, SCHEMA, init), init, e, id);
  }

  lemma {:induction false} ComplaintsOf(t: Tables, rows: seq<Entry>, id: string)
    requires forall e :: e in rows ==> e.installationIdentity.Some?
    requires Sorted(RowOrder(t, SCHEMA), rows)
    ensures Conflict(id) in Complaints(t, SCHEMA, rows) <==> Disputed(t, Survivors(t, SCHEMA, rows), rows, id)
  {
    if rows != [] {
      var init, e := rows[..|rows| - 1], rows[|rows| - 1];
      SortedInit(RowOrder(t, SCHEMA), rows);
      ComplaintsOf(t, init, id);
      assert rows == init + [e] && e in rows;
      if Repeats(t, SCHEMA, Survivors(t, SCHEMA, init), e) {
        ComplaintAtRepeat(t, rows, id);
      } else {
        ComplaintAtNew(t, rows, id);
      }
    }
  }

  lemma DisputeAtRepeat(t: Tables, kept: seq<Entry>, init: seq<Entry>, e: Entry, id: string)
    requires KeysIncrease(t, SCHEMA, kept) && Repeats(t, SCHEMA, kept, e)
    ensures Disputed(t, kept, init + [e], id) <==>
            Disputed(t, kept, init, id) || (IdentityKey(t, SCHEMA, e) == id && kept[|kept| - 1].version != e.version)
  {
    var last := kept[|kept| - 1];
    UniqueKey(t, SCHEMA, kept, last);
    if Disputed(t, kept, init + [e], id) {
      var x, y :| x in kept && y in init + [e] && Clash(t, x, y, id);
      assert y in init || (y == e && x == last);
    }
    if Disputed(t, kept, init, id) {
      var x, y :| x in kept && y in init && Clash(t, x, y, id);
      assert y in init + [e];
    }
    if IdentityKey(t, SCHEMA, e) == id && last.version != e.version {
      assert last in kept && e in init + [e] && Clash(t, last, e, id);
    }
  }

  lemma DisputeAtNew(t: Tables, kept: seq<Entry>, init: seq<Entry>, e: Entry, id: string)
    requires forall x :: x in kept ==> x in init
    requires forall x :: x in init ==> IdentityKey(t, SCHEMA, x) != IdentityKey(t, SCHEMA, e)
    ensures Disputed(t, kept + [e], init + [e], id) <==> Disputed(t, kept, init, id)
  {
    if Disputed(t, kept + [e], init + [e], id) {
      var x, y :| x in kept + [e] && y in init + [e] && Clash(t, x, y, id);
      assert x != e && y != e;
      assert x in kept && y in init;
    }
    if Disputed(t, kept, init, id) {
      var x, y :| x in kept && y in init && Clash(t, x, y, id);
      assert x in kept + [e] && y in init + [e];
    }
  }

  lemma UniqueKey(t: Tables, schema: nat, rows: seq<Entry>, e: Entry)
    requires KeysIncrease(t, schema, rows) && e in rows
    ensures forall x :: x in rows && IdentityKey(t, schema, x) == IdentityKey(t, schema, e) ==> x == e
  {
    var j :| 0 <= j < |rows| && rows[j] == e;
    forall x | x in rows && IdentityKey(t, schema, x) == IdentityKey(t, schema, e) ensures x == e {
      var i :| 0 <= i < |rows| && rows[i] == x;
      TextFlip(IdentityKey(t, schema, x), IdentityKey(t, schema, e));
      TextFlip(IdentityKey(t, schema, e), IdentityKey(t, schema, e));
    }
  }

  lemma {:induction false} NewGroup(t: Tables, rows: seq<Entry>)
    requires rows != [] && Sorted(RowOrder(t, SCHEMA), rows)
    requires !Repeats(t, SCHEMA, Survivors(t, SCHEMA, rows[..|rows| - 1]), rows[|rows| - 1])
    ensures var grown := Survivors(t, SCHEMA, rows[..|rows| - 1]) + [rows[|rows| - 1]];
            Survivors(t, SCHEMA, rows) == grown && KeysIncrease(t, SCHEMA, grown)
  {
    SurvivorKeysIncrease(t, SCHEMA, rows);
  }

  lemma SortedInit<T>(cmp: (T, T) -> Order, rows: seq<T>)
    requires rows != [] && Sorted(cmp, rows)
    ensures Sorted(cmp, rows[..|rows| - 1])
  {}

  /** A row that opens a new group shares its key with no earlier row. */
  lemma NewKey(t: Tables, rows: seq<Entry>)
    requires rows != [] && Sorted(RowOrder(t, SCHEMA), rows)
    requires !Repeats(t, SCHEMA, Survivors(t, SCHEMA, rows[..|rows| - 1]), rows[|rows| - 1])
    ensures forall x :: x in rows[..|rows| - 1] ==>
              IdentityKey(t, SCHEMA, x) != IdentityKey(t, SCHEMA, rows[|rows| - 1])
  {
    var init, e := rows[..|rows| - 1], rows[|rows| - 1];
    NewGroup(t, rows);
    SortedInit(RowOrder(t, SCHEMA), rows);
    forall x | x in init ensures IdentityKey(t, SCHEMA, x) != IdentityKey(t, SCHEMA, e) {
      KeyIsNew(t, init, e, x);
    }
  }

  lemma KeyIsNew(t: Tables, init: seq<Entry>, e: Entry, x: Entry)
    requires Sorted(RowOrder(t, SCHEMA), init) && x in init
    requires KeysIncrease(t, SCHEMA, Survivors(t, SCHEMA, init) + [e])
    ensures IdentityKey(t, SCHEMA, x) != IdentityKey(t, SCHEMA, e)
  {
    var y := KeptFor(t, init, x);
    LastIsApart(t, Survivors(t, SCHEMA, init), e);
  }

  lemma LastIsApart(t: Tables, kept: seq<Entry>, e: Entry)
    requires KeysIncrease(t, SCHEMA, kept + [e])
    ensures forall y :: y in kept ==> IdentityKey(t, SCHEMA, y) != IdentityKey(t, SCHEMA, e)
  {
    var all := kept + [e];
    forall y | y in kept ensures IdentityKey(t, SCHEMA, y) != IdentityKey(t, SCHEMA, e) {
      var i :| 0 <= i < |kept| && kept[i] == y;
      assert all[i] == y && all[|kept|] == e;
      TextFlip(IdentityKey(t, SCHEMA, y), IdentityKey(t, SCHEMA, e));
    }
  }

  /** The current schema warns of an installation exactly when its rows disagree about the version. */
  lemma {:induction false} ConflictsAreDisagreements(t: Tables, rows: seq<Entry>, id: string)
    requires forall e :: e in rows ==> e.installationIdentity.Some?
    requires Sorted(RowOrder(t, SCHEMA), rows)
    ensures Conflict(id) in Complaints(t, SCHEMA, rows) <==> Disputed(t, rows, rows, id)
  {
    ComplaintsOf(t, rows, id);
    if Disputed(t, rows, rows, id) {
      DisputeReachesKept(t, rows, id);
    } else {
      SurvivorsAreRows(t, SCHEMA, rows);
    }
  }

  lemma DisputeReachesKept(t: Tables, rows: seq<Entry>, id: string)
    requires Sorted(RowOrder(t, SCHEMA), rows) && Disputed(t, rows, rows, id)
    ensures Disputed(t, Survivors(t, SCHEMA, rows), rows, id)
  {
    var x, y :| x in rows && y in rows && Clash(t, x, y, id);
    var s := KeptFor(t, rows, x);
    assert Clash(t, s, x, id) || Clash(t, s, y, id);
  }

  lemma KeptFor(t: Tables, rows: seq<Entry>, x: Entry) returns (kept: Entry)
    requires Sorted(RowOrder(t, SCHEMA), rows) && x in rows
    ensures kept in Survivors(t, SCHEMA, rows) && StandsFor(t, SCHEMA, kept, x)
  {
    SurvivorsRepresent(t, SCHEMA, rows);
    kept :| kept in Survivors(t, SCHEMA, rows) && StandsFor(t, SCHEMA, kept, x);
  }

  // ---------------------------------------------------------------- idempotence

  lemma PrepareIdempotent(t: Tables, schema: nat, agent: string, e: Entry)
    requires t.Sane()
    ensures Prepare(t, schema, agent, Prepare(t, schema, agent, e)) == Prepare(t, schema, agent, e)
  {
    NormalEntryIdempotent(t, e);
    IdentifyIdempotent(t, agent, NormalEntry(t, e));
  }

  lemma SurvivorIsFixed(t: Tables, c: Content, e: Entry)
    requires t.Sane() && e in Prepared(t, c.schema, c.agent, c.software)
    ensures Prepare(t, c.schema, c.agent, e) == e
  {
    var k :| 0 <= k < |c.software| && e == Prepared(t, c.schema, c.agent, c.software)[k];
    PrepareIdempotent(t, c.schema, c.agent, c.software[k]);
  }

  lemma PreparedFixed(t: Tables, schema: nat, agent: string, rows: seq<Entry>)
    requires forall e :: e in rows ==> Prepare(t, schema, agent, e) == e && e.name != ""
    ensures Named(Prepared(t, schema, agent, rows)) == rows
  {
    assert forall i :: 0 <= i < |rows| ==> rows[i] in rows;
    assert Prepared(t, schema, agent, rows) == rows;
    FilterFixed((e: Entry) => e.name != "", rows);
  }

  lemma IncreasingIsSorted(t: Tables, schema: nat, rows: seq<Entry>)
    requires KeysIncrease(t, schema, rows)
    ensures Sorted(RowOrder(t, schema), rows)
  {}

  lemma SoftwareIdempotent(t: Tables, c: Content)
    requires t.Sane()
    ensures Ordered(t, c.schema, c.agent, Normalized(t, c).software) == Normalized(t, c).software
  {
    NormalizeKeepsNewest(t, c);
    var kept := Normalized(t, c).software;
    forall e | e in kept ensures Prepare(t, c.schema, c.agent, e) == e { SurvivorIsFixed(t, c, e); }
    PreparedFixed(t, c.schema, c.agent, kept);
    IncreasingIsSorted(t, c.schema, kept);
    SortFixed(RowOrder(t, c.schema), kept);
  }

  lemma IdentifiersIdempotent(u: Unicode, ids: seq<Identifier>)
    ensures Identifiers(u, Identifiers(u, ids)) == Identifiers(u, ids)
  {
    IdentifiersAreOrdered();
    var p := (i: Identifier) => !Blank(u, i.valueHash);
    var sorted := Sort(CompareIdentifiers, Filter(p, ids));
    FilterMembers(p, ids);
    SortMembers(CompareIdentifiers, Filter(p, ids));
    SortSorted(CompareIdentifiers, Filter(p, ids));
    DedupSorted(CompareIdentifiers, sorted);
    var r := Dedup(sorted);
    forall i | 0 <= i < |r| ensures p(r[i]) { assert r[i] in r; }
    FilterFixed(p, r);
    SortFixed(CompareIdentifiers, r);
    DedupFixed(r);
  }

  /** Normalizing the whole snapshot a second time changes nothing, in any schema. */
  lemma NormalizeIdempotent(t: Tables, c: Content)
    requires t.Sane()
    ensures Normalized(t, Normalized(t, c)) == Normalized(t, c)
  {
    var n := Normalized(t, c);
    SoftwareIdempotent(t, c);
    NormalizeKeepsNewest(t, c);
    SurvivorsFixed(t, c.schema, n.software);
    IdentifiersIdempotent(t.unicode, c.identifiers);
    ReportsAreOrdered();
    SortSorted(CompareReports, c.sources);
    SortFixed(CompareReports, Sort(CompareReports, c.sources));
  }

  // ---------------------------------------------------------------- what merging means

  /** In the current schema two rows are merged only when product, package, scope and instance coincide. */
  lemma MergedRowsCoincide(t: Tables, agent: string, rows: seq<Entry>, a: Entry, b: Entry)
    requires t.Sane() && t.CollisionFree()
    requires a in Prepared(t, SCHEMA, agent, rows) && b in Prepared(t, SCHEMA, agent, rows)
    requires PartsFit(t, a) && PartsFit(t, b)
    requires IdentityKey(t, SCHEMA, a) == IdentityKey(t, SCHEMA, b)
    ensures ComparisonKey(t, a) == ComparisonKey(t, b) && a.source == b.source
    ensures a.packageId == b.packageId && a.scope == b.scope && a.instanceId == b.instanceId
  {
    forall e | e == a || e == b ensures Fixed(t, e) && e.installationIdentity.Some? {
      var k :| 0 <= k < |rows| && e == Prepare(t, SCHEMA, agent, rows[k]);
      IdentifyIdempotent(t, agent, NormalEntry(t, rows[k]));
      FixedFields(t, e);
    }
    IdentityDetermines(t, a, b);
  }

  // ---------------------------------------------------------------- in terms of the raw snapshot

  /** What preparation leaves of a raw row's name, version and source. */
  lemma PrepareSays(t: Tables, schema: nat, agent: string, e: Entry)
    requires t.Sane()
    ensures var p := Prepare(t, schema, agent, e);
            && p.name == Join(Words(t.unicode, e.name)) && (p.name == "" <==> Words(t.unicode, e.name) == [])
            && Tidied(t, e.version, p.version) && p.source == e.source
  {
    NormalEntryIdempotent(t, e);
    IdentifyKeepsText(t, agent, NormalEntry(t, e));
    CollapseKeepsWords(t.unicode, e.name);
    OptionalKeepsWords(t, e.version);
  }

  lemma IdentifyKeepsText(t: Tables, agent: string, e: Entry)
    requires t.Sane() && NormalEntry(t, e) == e
    ensures var f := Identify(t, agent, e); f.name == e.name && f.version == e.version && f.source == e.source
  {
    var f := EnsureIdentity(t, e);
    assert f.name == e.name && f.version == e.version && f.source == e.source;
    var g := f.(instanceId := Some(HashIdentity(t, [ENDPOINT_LABEL, agent, GetOr(f.instanceId, "")])));
    EnsureIdempotent(t, e);
    assert NormalEntry(t, f) == f;
    assert NormalEntry(t, g).name == f.name && NormalEntry(t, g).version == f.version;
  }

  /** A version and its tidied form compare alike. */
  lemma TidiedCompares(t: Tables, raw: Option<string>, o: Option<string>, other: Option<string>)
    requires t.Sane() && t.unicode.Sane() && WordsOf(t, raw) != [] && Tidied(t, raw, o)
    ensures Compare(t.unicode, raw, other) == Compare(t.unicode, o, other)
  {
    CollapseKeepsVersion(t.unicode, raw.value);
    if other.Some? {
      ComparedByChunks(t.unicode, raw.value, other.value);
      ComparedByChunks(t.unicode, o.value, other.value);
    }
  }

  /** Every raw row with a word in its name is represented by a row of its key that has at least its version. */
  lemma NewestRawVersionStays(t: Tables, c: Content, e: Entry) returns (kept: Entry)
    requires t.Sane() && e in c.software && Words(t.unicode, e.name) != []
    ensures kept in Normalized(t, c).software
    ensures IdentityKey(t, c.schema, kept) == IdentityKey(t, c.schema, Prepare(t, c.schema, c.agent, e))
    ensures WordsOf(t, e.version) != [] ==>
              kept.version.Some? && !Compare(t.unicode, e.version, kept.version).Greater?
  {
    var i :| 0 <= i < |c.software| && c.software[i] == e;
    var p := Prepared(t, c.schema, c.agent, c.software)[i];
    PrepareSays(t, c.schema, c.agent, e);
    NormalizeKeepsNewest(t, c);
    assert p in Prepared(t, c.schema, c.agent, c.software);
    assert Represents(t, c.schema, Normalized(t, c).software, p);
    kept :| kept in Normalized(t, c).software && StandsFor(t, c.schema, kept, p);
    if WordsOf(t, e.version) != [] {
      TidiedCompares(t, e.version, p.version, kept.version);
    }
  }

  /** And every row kept has name, version and source of some raw row, up to white space. */
  lemma KeptRowsAreRaw(t: Tables, c: Content, kept: Entry) returns (e: Entry)
    requires t.Sane() && kept in Normalized(t, c).software
    ensures e in c.software && kept.source == e.source && Tidied(t, e.version, kept.version)
    ensures kept.name == Join(Words(t.unicode, e.name)) && Words(t.unicode, e.name) != []
  {
    NormalizeKeepsNewest(t, c);
    var i :| 0 <= i < |c.software| && Prepared(t, c.schema, c.agent, c.software)[i] == kept;
    e := c.software[i];
    PrepareSays(t, c.schema, c.agent, e);
  }

  /** Two raw rows that place, package or version tell apart are never merged in the current schema. */
  lemma ToldApartStaysApart(t: Tables, agent: string, a: Entry, b: Entry)
    requires t.Sane() && t.CollisionFree() && ToldApart(t, a, b) && TextsFit(t, a) && TextsFit(t, b)
    requires forall e :: e == a || e == b ==> e.instanceId.None? && e.installationIdentity.None?
    requires PartsFit(t, Prepare(t, SCHEMA, agent, a)) && PartsFit(t, Prepare(t, SCHEMA, agent, b))
    requires t.Fits(ENDPOINT_LABEL) && t.Fits(agent) && t.Fits(InstanceOf(t, a)) && t.Fits(InstanceOf(t, b))
    ensures IdentityKey(t, SCHEMA, Prepare(t, SCHEMA, agent, a)) != IdentityKey(t, SCHEMA, Prepare(t, SCHEMA, agent, b))
  {
    NormalEntryIdempotent(t, a);
    NormalEntryIdempotent(t, b);
    var x, y := NormalEntry(t, a), NormalEntry(t, b);
    assert InstanceOf(t, x) == InstanceOf(t, a) && InstanceOf(t, y) == InstanceOf(t, b);
    InstancesDiffer(t, a, b);
    if Identify(t, agent, x).installationIdentity == Identify(t, agent, y).installationIdentity {
      SideBySideStaysApart(t, agent, x, y);
    }
  }

  /** Each warning of an old schema names a kept row and one dropped behind it, of its key and no newer. */
  ghost predicate NamesDropped(t: Tables, schema: nat, kept: seq<Entry>, rows: seq<Entry>, w: Warning) {
    exists y, x :: y in kept && x in rows && StandsFor(t, schema, y, x)
                   && w == Duplicate(x.name, ComparisonKey(t, x), y.version, x.version)
  }

  lemma {:induction false} ComplaintsNameDropped(t: Tables, schema: nat, rows: seq<Entry>)
    requires schema != SCHEMA && Sorted(RowOrder(t, schema), rows)
    ensures forall w :: w in Complaints(t, schema, rows) ==>
              NamesDropped(t, schema, Survivors(t, schema, rows), rows, w)
  {
    if rows != [] {
      var init, e := rows[..|rows| - 1], rows[|rows| - 1];
      var kept := Survivors(t, schema, init);
      ComplaintsNameDropped(t, schema, init);
      SurvivorsAreRows(t, schema, init);
      forall w | w in Complaints(t, schema, rows) ensures NamesDropped(t, schema, Survivors(t, schema, rows), rows, w) {
        if w in Complaints(t, schema, init) {
          var y, x :| y in kept && x in init && StandsFor(t, schema, y, x)
                      && w == Duplicate(x.name, ComparisonKey(t, x), y.version, x.version);
          assert y in Survivors(t, schema, rows) && x in rows;
        } else {
          var last := kept[|kept| - 1];
          assert last in init && !RowOrder(t, schema)(last, e).Greater?;
          FirstStands(t, schema, last, e);
          assert last in Survivors(t, schema, rows) && e in rows;
        }
      }
    }
  }

  lemma LegacyWarningsSay(t: Tables, c: Content, w: Warning)
    requires c.schema != SCHEMA && w in Normalized(t, c).warnings && w !in c.warnings
    ensures NamesDropped(t, c.schema, Normalized(t, c).software, Ordered(t, c.schema, c.agent, c.software), w)
  {
    OrderedMembers(t, c.schema, c.agent, c.software);
    ComplaintsNameDropped(t, c.schema, Ordered(t, c.schema, c.agent, c.software));
  }

  predicate IsOld(e: Entry) {
    && e.productIdentity.None? && e.installationIdentity.None? && e.packageId.None? && e.scope.None?
    && e.instanceId.None? && !e.source.Pacman? && !e.source.MacBundle?
  }

  lemma PreparedLegacyIsOld(t: Tables, agent: string, rows: seq<Entry>, e: Entry)
    requires e in Prepared(t, LEGACY_SCHEMA, agent, Legacies(rows))
    ensures IsOld(e)
  {
    var i :| 0 <= i < |rows| && Prepared(t, LEGACY_SCHEMA, agent, Legacies(rows))[i] == e;
    assert IsOld(Legacy(rows[i]));
  }

  /** An old server sees none of the newer fields and none of the newer sources. */
  lemma LegacyRowsAreOld(t: Tables, c: Content, e: Entry)
    requires c.schema == LEGACY_SCHEMA && e in Normalized(t, c.(software := Legacies(c.software))).software
    ensures IsOld(e)
  {
    NormalizeKeepsNewest(t, c.(software := Legacies(c.software)));
    PreparedLegacyIsOld(t, c.agent, c.software, e);
  }

  /** Identifiers come out ascending, once each, and exactly those with a character that is not white. */
  lemma IdentifiersSay(u: Unicode, ids: seq<Identifier>)
    ensures forall x :: x in Identifiers(u, ids) <==>
              x in ids && exists k :: 0 <= k < |x.valueHash| && !u.white(x.valueHash[k])
    ensures forall i, j :: 0 <= i < j < |Identifiers(u, ids)| ==>
              !CompareIdentifiers(Identifiers(u, ids)[i], Identifiers(u, ids)[j]).Greater?
    ensures forall i :: 0 <= i < |Identifiers(u, ids)| - 1 ==> Identifiers(u, ids)[i] != Identifiers(u, ids)[i + 1]
  {
    IdentifiersAreOrdered();
    var p := (i: Identifier) => !Blank(u, i.valueHash);
    FilterMembers(p, ids);
    SortMembers(CompareIdentifiers, Filter(p, ids));
    SortSorted(CompareIdentifiers, Filter(p, ids));
    DedupSorted(CompareIdentifiers, Sort(CompareIdentifiers, Filter(p, ids)));
    DedupMembers(Sort(CompareIdentifiers, Filter(p, ids)));
  }
}
