/** Software entries: canonical text, product keys and hashed installation identities. */
module Identity {
  import opened Options
  import opened VersionOrder
  import opened TextForm

  const U64_LIMIT := 0x1_0000_0000_0000_0000

  /** What the model takes from libraries: Unicode tables, full lower-casing, UTF-8 and SHA-256 in hex. */
  datatype Tables = Tables(unicode: Unicode, lower: string -> string,
                           utf8: string -> seq<nat>, digest: seq<nat> -> string) {
    /** ASCII letters are no white space, a blank is. */
    ghost predicate Sane() {
      && unicode.Sane() && unicode.white(' ')
      && (forall ch: char :: 'A' <= ch <= 'Z' || 'a' <= ch <= 'z' || ch == '_' ==> !unicode.white(ch))
    }

    /** The hash has no collisions and UTF-8 is an encoding. */
    ghost predicate CollisionFree() {
      && (forall a: seq<nat>, b: seq<nat> :: digest(a) == digest(b) ==> a == b)
      && (forall a: string, b: string :: utf8(a) == utf8(b) ==> a == b)
    }

    /** A character that some lower-cased text holds. */
    ghost predicate LowerLetter(ch: char) { exists s: string :: ch in lower(s) }

    ghost predicate Lowered(s: string) { forall i :: 0 <= i < |s| ==> LowerLetter(s[i]) }

    /** Text made of lower-cased characters is left as it is, and the bar is one of them. */
    ghost predicate LowerStable() {
      && LowerLetter('|')
      && (forall s: string :: Lowered(s) ==> lower(s) == s)
    }

    ghost predicate Fits(part: string) { |utf8(part)| < U64_LIMIT }
  }

  datatype Source = Apt | Dpkg | Rpm | Winreg | Msi | Brew | Pip | Npm | Java | Kb | Pacman | MacBundle | Other {
    function Name(): string {
      match this
      case Apt => "apt"
      case Dpkg => "dpkg"
      case Rpm => "rpm"
      case Winreg => "winreg"
      case Msi => "msi"
      case Brew => "brew"
      case Pip => "pip"
      case Npm => "npm"
      case Java => "java"
      case Kb => "kb"
      case Pacman => "pacman"
      case MacBundle => "mac_bundle"
      case Other => "other"
    }
  }

  datatype Scope = System | User | Runtime | Container {
    function Name(): string {
      match this
      case System => "system"
      case User => "user"
      case Runtime => "runtime"
      case Container => "container"
    }
  }

  datatype Entry = Entry(
    name: string,
    version: Option<string>,
    publisher: Option<string>,
    architecture: Option<string>,
    source: Source,
    installLocation: Option<string>,
    productIdentity: Option<string>,
    installationIdentity: Option<string>,
    packageId: Option<string>,
    scope: Option<Scope>,
    instanceId: Option<string>)

  function GetOr(o: Option<string>, default: string): string {
    if o.Some? then o.value else default
  }

  // ---------------------------------------------------------------- canonical text

  function NormalOptional(t: Tables, o: Option<string>): Option<string> {
    if o.None? || Collapse(t.unicode, o.value) == "" then None else Some(Collapse(t.unicode, o.value))
  }

  function NormalArchitecture(value: string): string {
    var lower := AsciiLower(value);
    if lower == "amd64" || lower == "x64" then "x86_64"
    else if lower == "arm64" then "aarch64"
    else lower
  }

  function NormalEntry(t: Tables, e: Entry): Entry {
    var architecture := NormalOptional(t, e.architecture);
    e.(name := Collapse(t.unicode, e.name),
       version := NormalOptional(t, e.version),
       publisher := NormalOptional(t, e.publisher),
       architecture := if architecture.Some? then Some(NormalArchitecture(architecture.value)) else None,
       installLocation := NormalOptional(t, e.installLocation))
  }

  lemma OptionalIdempotent(t: Tables, o: Option<string>)
    requires t.Sane()
    ensures NormalOptional(t, NormalOptional(t, o)) == NormalOptional(t, o)
  {
    if o.Some? {
      CollapseIdempotent(t.unicode, o.value);
    }
  }

  lemma LowerKeepsCollapsed(t: Tables, s: string)
    requires t.Sane() && Collapsed(t.unicode, s)
    ensures Collapsed(t.unicode, AsciiLower(s))
  {
    var l := AsciiLower(s);
    assert forall i :: 0 <= i < |s| ==> t.unicode.white(l[i]) == t.unicode.white(s[i]);
    assert forall i :: 0 <= i < |s| && t.unicode.white(s[i]) ==> l[i] == s[i];
  }

  lemma LowerIdempotent(s: string)
    ensures AsciiLower(AsciiLower(s)) == AsciiLower(s)
  {}

  lemma SolidIsCollapsed(t: Tables, s: string)
    requires t.Sane() && s != ""
    requires forall i :: 0 <= i < |s| ==> !t.unicode.white(s[i])
    ensures NormalOptional(t, Some(s)) == Some(s)
  {
    CollapsedFixed(t.unicode, s);
  }

  lemma CanonicalNames(t: Tables)
    requires t.Sane()
    ensures NormalOptional(t, Some("x86_64")) == Some("x86_64")
    ensures NormalOptional(t, Some("aarch64")) == Some("aarch64")
    ensures NormalArchitecture("x86_64") == "x86_64" && NormalArchitecture("aarch64") == "aarch64"
  {
    assert AsciiLower("x86_64") == "x86_64" && AsciiLower("aarch64") == "aarch64";
    SolidIsCollapsed(t, "x86_64");
    SolidIsCollapsed(t, "aarch64");
  }

  lemma LowerIsCanonical(t: Tables, a: string)
    requires t.Sane() && Collapsed(t.unicode, a) && a != ""
    ensures NormalOptional(t, Some(AsciiLower(a))) == Some(AsciiLower(a))
  {
    LowerKeepsCollapsed(t, a);
    CollapsedFixed(t.unicode, AsciiLower(a));
    assert |AsciiLower(a)| == |a|;
  }

  lemma ArchitectureIdempotent(t: Tables, a: string)
    requires t.Sane() && Collapsed(t.unicode, a) && a != ""
    ensures NormalOptional(t, Some(NormalArchitecture(a))) == Some(NormalArchitecture(a))
    ensures NormalArchitecture(NormalArchitecture(a)) == NormalArchitecture(a)
  {
    CanonicalNames(t);
    LowerIsCanonical(t, a);
    LowerIdempotent(a);
  }

  lemma NormalEntryIdempotent(t: Tables, e: Entry)
    requires t.Sane()
    ensures NormalEntry(t, NormalEntry(t, e)) == NormalEntry(t, e)
  {
    CollapseIdempotent(t.unicode, e.name);
    OptionalIdempotent(t, e.version);
    OptionalIdempotent(t, e.publisher);
    OptionalIdempotent(t, e.installLocation);
    if NormalOptional(t, e.architecture).Some? {
      CollapseIdempotent(t.unicode, e.architecture.value);
      ArchitectureIdempotent(t, Collapse(t.unicode, e.architecture.value));
    }
  }

  /** The words of an optional text. */
  function WordsOf(t: Tables, o: Option<string>): seq<string> {
    if o.None? then [] else Words(t.unicode, o.value)
  }

  lemma OptionalKeepsWords(t: Tables, o: Option<string>)
    requires t.Sane()
    ensures var n := NormalOptional(t, o);
            && (n.None? <==> WordsOf(t, o) == []) && WordsOf(t, n) == WordsOf(t, o)
            && (n.Some? ==> n.value == Join(WordsOf(t, o)))
  {
    if o.Some? {
      CollapseKeepsWords(t.unicode, o.value);
    }
  }

  /** What normalization leaves of a raw text: its words, single blanks between them, nothing if it has none. */
  predicate Tidied(t: Tables, raw: Option<string>, o: Option<string>) {
    && (o.None? <==> WordsOf(t, raw) == [])
    && WordsOf(t, o) == WordsOf(t, raw)
    && (o.Some? ==> o.value == Join(WordsOf(t, raw)))
  }

  /** Every field of a normalized row in terms of the raw one. */
  lemma NormalEntrySays(t: Tables, e: Entry, folded: string)
    requires t.Sane() && Folds(Join(WordsOf(t, e.architecture)), folded)
    ensures var n := NormalEntry(t, e);
            && Words(t.unicode, n.name) == Words(t.unicode, e.name) && n.name == Join(Words(t.unicode, e.name))
            && Tidied(t, e.version, n.version) && Tidied(t, e.publisher, n.publisher)
            && Tidied(t, e.installLocation, n.installLocation)
            && (n.architecture.None? <==> WordsOf(t, e.architecture) == [])
            && (n.architecture.Some? ==>
                  n.architecture.value == if folded == "amd64" || folded == "x64" then "x86_64"
                                          else if folded == "arm64" then "aarch64" else folded)
            && n.source == e.source && n.packageId == e.packageId && n.scope == e.scope
            && n.instanceId == e.instanceId && n.installationIdentity == e.installationIdentity
            && n.productIdentity == e.productIdentity
  {
    CollapseKeepsWords(t.unicode, e.name);
    OptionalKeepsWords(t, e.version);
    OptionalKeepsWords(t, e.publisher);
    OptionalKeepsWords(t, e.installLocation);
    OptionalKeepsWords(t, e.architecture);
    assert AsciiLower(Join(WordsOf(t, e.architecture))) == folded;
  }

  // ---------------------------------------------------------------- product key

  function ProductPrefix(t: Tables, e: Entry): string {
    t.lower(e.name) + "|" + t.lower(GetOr(e.publisher, "")) + "|" + t.lower(GetOr(e.architecture, ""))
  }

  function ComparisonKey(t: Tables, e: Entry): string {
    ProductPrefix(t, e) + "|" + e.source.Name()
  }

  function AfterLastBar(s: string): string {
    if s == [] || s[|s| - 1] == '|' then [] else AfterLastBar(s[..|s| - 1]) + [s[|s| - 1]]
  }

  lemma {:induction false} AfterBar(prefix: string, suffix: string)
    requires '|' !in suffix
    ensures AfterLastBar(prefix + "|" + suffix) == suffix
  {
    var s := prefix + "|" + suffix;
    if suffix == "" {
      assert s[|s| - 1] == '|';
    } else {
      var init := suffix[..|suffix| - 1];
      AfterBar(prefix, init);
      assert s[..|s| - 1] == prefix + "|" + init;
    }
  }

  lemma SourceNames(a: Source, b: Source)
    ensures '|' !in a.Name() && (a.Name() == b.Name() ==> a == b)
  {}

  /** Fields joined with bars are not recoverable from the key, but the source is. */
  lemma KeyDeterminesSource(t: Tables, a: Entry, b: Entry)
    requires ComparisonKey(t, a) == ComparisonKey(t, b)
    ensures a.source == b.source
  {
    SourceNames(a.source, b.source);
    SourceNames(b.source, a.source);
    AfterBar(ProductPrefix(t, a), a.source.Name());
    AfterBar(ProductPrefix(t, b), b.source.Name());
  }

  /** Two products that differ only in where a bar falls share one key. */
  lemma KeyIsNotInjective(t: Tables)
    requires t.lower("a|b") == "a|b" && t.lower("a") == "a" && t.lower("b") == "b" && t.lower("") == ""
    requires t.lower("b|") == "b|"
    ensures exists e: Entry, f: Entry ::
              e.name != f.name && e.source == f.source && ComparisonKey(t, e) == ComparisonKey(t, f)
  {
    var e := Entry("a|b", None, None, None, Other, None, None, None, None, None, None);
    var f := e.(name := "a", publisher := Some("b|"));
    assert ComparisonKey(t, e) == "a|b|||other";
    assert ComparisonKey(t, f) == "a|b|||other";
    assert e.name != f.name;
  }

  /** The fields the key is built from, as they enter it. */
  function KeyFields(t: Tables, e: Entry): (string, string, string) {
    (t.lower(e.name), t.lower(GetOr(e.publisher, "")), t.lower(GetOr(e.architecture, "")))
  }

  lemma SplitAtFirstBar(a: string, b: string, x: string, y: string)
    requires '|' !in a && '|' !in b
    requires a + "|" + x == b + "|" + y
    ensures a == b && x == y
  {
    var s := a + "|" + x;
    assert s[|a|] == '|' && s[|b|] == '|';
    assert s[..|a|] == a && s[..|b|] == b;
    assert |b| <= |a| by { NoBarBefore(b, y, |a|); }
    assert |a| <= |b| by { NoBarBefore(a, x, |b|); }
    assert s[|a| + 1..] == x && s[|a| + 1..] == y;
  }

  lemma NoBarBefore(a: string, x: string, i: nat)
    requires '|' !in a && i < |a + "|" + x| && (a + "|" + x)[i] == '|'
    ensures |a| <= i
  {}

  lemma Regroup(n: string, p: string, r: string, s: string)
    ensures n + "|" + p + "|" + r + "|" + s == n + "|" + (p + "|" + (r + ("|" + s)))
  {}

  /** Among entries without a bar in name and publisher, equal keys mean equal fields. */
  lemma KeyDeterminesFields(t: Tables, a: Entry, b: Entry)
    requires ComparisonKey(t, a) == ComparisonKey(t, b)
    requires forall e :: e == a || e == b ==> '|' !in KeyFields(t, e).0 && '|' !in KeyFields(t, e).1
    ensures KeyFields(t, a) == KeyFields(t, b) && a.source == b.source
  {
    KeyDeterminesSource(t, a, b);
    SplitKeys(KeyFields(t, a), KeyFields(t, b), a.source.Name());
  }

  lemma SplitKeys(a: (string, string, string), b: (string, string, string), source: string)
    requires '|' !in a.0 && '|' !in a.1 && '|' !in b.0 && '|' !in b.1
    requires a.0 + "|" + a.1 + "|" + a.2 + "|" + source == b.0 + "|" + b.1 + "|" + b.2 + "|" + source
    ensures a == b
  {
    var end := "|" + source;
    Regroup(a.0, a.1, a.2, source);
    Regroup(b.0, b.1, b.2, source);
    SplitAtFirstBar(a.0, b.0, a.1 + "|" + (a.2 + end), b.1 + "|" + (b.2 + end));
    SplitAtFirstBar(a.1, b.1, a.2 + end, b.2 + end);
    SameEnd(a.2, b.2, end);
  }

  lemma SameEnd(a: string, b: string, end: string)
    requires a + end == b + end
    ensures a == b
  {
    assert (a + end)[..|a|] == a && (b + end)[..|b|] == b;
  }

  function Bars(s: string): nat {
    if s == "" then 0 else (if s[0] == '|' then 1 else 0) + Bars(s[1..])
  }

  lemma {:induction false} BarsAdd(a: string, b: string)
    ensures Bars(a + b) == Bars(a) + Bars(b)
  {
    if a == "" {
      assert a + b == b;
    } else {
      BarsAdd(a[1..], b);
      assert (a + b)[1..] == a[1..] + b;
    }
  }

  lemma {:induction false} BarsZero(s: string)
    ensures Bars(s) == 0 <==> '|' !in s
  {
    if s != "" {
      BarsZero(s[1..]);
      assert s == [s[0]] + s[1..];
    }
  }

  lemma KeyBars(t: Tables, e: Entry)
    ensures Bars(ComparisonKey(t, e))
            == 3 + Bars(KeyFields(t, e).0) + Bars(KeyFields(t, e).1) + Bars(KeyFields(t, e).2)
  {
    var (n, p, r) := KeyFields(t, e);
    BarsAdd(n, "|");
    BarsAdd(n + "|", p);
    BarsAdd(n + "|" + p, "|");
    BarsAdd(n + "|" + p + "|", r);
    BarsAdd(ProductPrefix(t, e), "|");
    BarsAdd(ProductPrefix(t, e) + "|", e.source.Name());
    SourceNames(e.source, e.source);
    BarsZero(e.source.Name());
  }

  lemma SplitAtABar(s: string) returns (x: string, y: string)
    requires '|' in s
    ensures s == x + "|" + y && |x| < |s| && |y| < |s|
  {
    var i :| 0 <= i < |s| && s[i] == '|';
    x, y := s[..i], s[i + 1..];
  }

  lemma LoweredSum(t: Tables, a: string, b: string)
    requires t.LowerStable()
    ensures t.Lowered(a) && t.Lowered(b) <==> t.Lowered(a + "|" + b)
  {
    var s := a + "|" + b;
    if t.Lowered(s) {
      assert forall i :: 0 <= i < |a| ==> s[i] == a[i];
      assert forall i :: 0 <= i < |b| ==> s[|a| + 1 + i] == b[i];
    }
  }

  /** An entry made of lower-cased fields. */
  lemma EntryOf(t: Tables, fields: (string, string, string), source: Source) returns (f: Entry)
    requires t.LowerStable() && t.Lowered(fields.0) && t.Lowered(fields.1) && t.Lowered(fields.2)
    ensures KeyFields(t, f) == fields && f.source == source
  {
    f := Entry(fields.0, None, Some(fields.1), Some(fields.2), source, None, None, None, None, None, None);
  }

  lemma Shift(n: string, a: string, b: string, r: string)
    ensures n + "|" + (a + "|" + b) + "|" + r == n + "|" + a + "|" + (b + "|" + r)
    ensures (a + "|" + b) + "|" + n + "|" + r == a + "|" + (b + "|" + n) + "|" + r
    ensures n + "|" + r + "|" + (a + "|" + b) == n + "|" + (r + "|" + a) + "|" + b
  {}

  /** A bar in one of the fields can be read as the end of that field, which gives another entry with this key. */
  lemma BarMovesFields(t: Tables, e: Entry) returns (f: Entry)
    requires t.LowerStable()
    requires '|' in KeyFields(t, e).0 || '|' in KeyFields(t, e).1 || '|' in KeyFields(t, e).2
    ensures ComparisonKey(t, f) == ComparisonKey(t, e) && KeyFields(t, f) != KeyFields(t, e)
  {
    var (n, p, r) := KeyFields(t, e);
    assert t.Lowered(n) && t.Lowered(p) && t.Lowered(r);
    var x, y := SplitAtABar(if '|' in n then n else if '|' in p then p else r);
    LoweredSum(t, x, y);
    LoweredSum(t, y, p);
    LoweredSum(t, y, r);
    LoweredSum(t, p, x);
    if '|' in n {
      Shift(p, x, y, r);
      f := EntryOf(t, (x, y + "|" + p, r), e.source);
    } else if '|' in p {
      Shift(n, x, y, r);
      f := EntryOf(t, (n, x, y + "|" + r), e.source);
    } else {
      Shift(n, x, y, p);
      f := EntryOf(t, (n, p + "|" + x, y), e.source);
    }
  }

  /** An entry shares its key with one of other name, publisher or architecture exactly when one of the three,
      lower-cased, holds a bar. */
  lemma KeySharedOnlyWithBar(t: Tables, e: Entry)
    requires t.LowerStable()
    ensures (exists f :: ComparisonKey(t, f) == ComparisonKey(t, e) && KeyFields(t, f) != KeyFields(t, e))
            <==> '|' in KeyFields(t, e).0 || '|' in KeyFields(t, e).1 || '|' in KeyFields(t, e).2
  {
    var (n, p, r) := KeyFields(t, e);
    if '|' in n || '|' in p || '|' in r {
      var f := BarMovesFields(t, e);
    } else {
      forall f | ComparisonKey(t, f) == ComparisonKey(t, e) ensures KeyFields(t, f) == KeyFields(t, e) {
        KeyBars(t, e);
        KeyBars(t, f);
        BarsZero(n);
        BarsZero(p);
        BarsZero(r);
        BarsZero(KeyFields(t, f).0);
        BarsZero(KeyFields(t, f).1);
        KeyDeterminesFields(t, e, f);
      }
    }
  }

  // ---------------------------------------------------------------- length-prefixed parts

  function BigEndian(n: nat, k: nat): (bytes: seq<nat>)
    ensures |bytes| == k
  {
    if k == 0 then [] else BigEndian(n / 256, k - 1) + [n % 256]
  }

  function Pow256(k: nat): nat { if k == 0 then 1 else 256 * Pow256(k - 1) }

  lemma {:induction false} BigEndianInjective(m: nat, n: nat, k: nat)
    requires m < Pow256(k) && n < Pow256(k) && BigEndian(m, k) == BigEndian(n, k)
    ensures m == n
  {
    if k > 0 {
      var a, b := BigEndian(m / 256, k - 1), BigEndian(n / 256, k - 1);
      assert BigEndian(m, k)[..k - 1] == a && BigEndian(n, k)[..k - 1] == b;
      assert BigEndian(m, k)[k - 1] == m % 256 && BigEndian(n, k)[k - 1] == n % 256;
      BigEndianInjective(m / 256, n / 256, k - 1);
    }
  }

  /** What the hasher is fed: each part's length in eight bytes, then the part. */
  function Encode(parts: seq<seq<nat>>): seq<nat> {
    if parts == [] then [] else BigEndian(|parts[0]|, 8) + parts[0] + Encode(parts[1..])
  }

  /** Different lists of parts never encode to the same bytes. */
  lemma {:induction false} EncodeInjective(a: seq<seq<nat>>, b: seq<seq<nat>>)
    requires forall p :: p in a || p in b ==> |p| < U64_LIMIT
    requires Encode(a) == Encode(b)
    ensures a == b
  {
    if a == [] {
      assert b != [] ==> |Encode(b)| >= 8;
    } else {
      assert |Encode(a)| >= 8;
      assert b != [];
      var e := Encode(a);
      assert e[..8] == BigEndian(|a[0]|, 8) && e[..8] == BigEndian(|b[0]|, 8);
      assert a[0] in a && b[0] in b;
      assert Pow256(8) == U64_LIMIT by { Pow256Of8(); }
      BigEndianInjective(|a[0]|, |b[0]|, 8);
      var n := |a[0]|;
      assert e[8..8 + n] == a[0] && e[8..8 + n] == b[0];
      assert e[8 + n..] == Encode(a[1..]) && e[8 + n..] == Encode(b[1..]);
      EncodeInjective(a[1..], b[1..]);
      assert a == [a[0]] + a[1..] && b == [b[0]] + b[1..];
    }
  }

  lemma Pow256Of8()
    ensures Pow256(8) == U64_LIMIT
  {
    assert Pow256(2) == 0x1_0000;
    assert Pow256(4) == 0x1_0000_0000;
    assert Pow256(6) == 0x1_0000_0000_0000;
  }

  function Bytes(t: Tables, parts: seq<string>): (bytes: seq<seq<nat>>)
    ensures |bytes| == |parts| && forall i :: 0 <= i < |parts| ==> bytes[i] == t.utf8(parts[i])
  {
    seq(|parts|, i requires 0 <= i < |parts| => t.utf8(parts[i]))
  }

  function HashIdentity(t: Tables, parts: seq<string>): string {
    t.digest(Encode(Bytes(t, parts)))
  }

  lemma HashInjective(t: Tables, a: seq<string>, b: seq<string>)
    requires t.CollisionFree() && forall p :: p in a || p in b ==> t.Fits(p)
    requires HashIdentity(t, a) == HashIdentity(t, b)
    ensures a == b
  {
    var x, y := Bytes(t, a), Bytes(t, b);
    forall p | p in x || p in y ensures |p| < U64_LIMIT {
      if p in x {
        var i :| 0 <= i < |x| && x[i] == p;
        assert a[i] in a;
      } else {
        var i :| 0 <= i < |y| && y[i] == p;
        assert b[i] in b;
      }
    }
    EncodeInjective(x, y);
    forall i | 0 <= i < |a| ensures a[i] == b[i] {
      assert x[i] == y[i];
    }
  }

  // ---------------------------------------------------------------- installation identity

  const INSTANCE_LABEL := "lariska-install-instance-v2"
  const ENDPOINT_LABEL := "lariska-endpoint-instance-v2"
  const INSTALLATION_LABEL := "lariska-installation-v2"

  function DefaultScope(source: Source): Scope {
    if source.Pip? || source.Npm? || source.Java? then Runtime else System
  }

  /** What tells two installations of one product apart when the collector supplied no instance. */
  function Evidence(e: Entry): string {
    if e.installLocation.Some? then e.installLocation.value
    else if e.packageId.Some? then e.packageId.value
    else GetOr(e.version, "unknown")
  }

  function IdentityParts(t: Tables, e: Entry): seq<string> {
    [INSTALLATION_LABEL, ComparisonKey(t, e), GetOr(e.packageId, ""),
     (if e.scope.Some? then e.scope.value else System).Name(), GetOr(e.instanceId, "")]
  }

  function EnsureIdentity(t: Tables, raw: Entry): Entry {
    var e := NormalEntry(t, raw);
    var e1 := e.(packageId := NormalOptional(t, e.packageId),
                 scope := if e.scope.Some? then e.scope else Some(DefaultScope(e.source)));
    var e2 := e1.(instanceId := if e1.instanceId.Some? then e1.instanceId
                                else Some(HashIdentity(t, [INSTANCE_LABEL, Evidence(e1)])));
    e2.(installationIdentity := Some(HashIdentity(t, IdentityParts(t, e2))),
        productIdentity := Some(ComparisonKey(t, e2)),
        installLocation := None)
  }

  /** An entry that already has an identity keeps its instance; a new one gets an instance bound to the agent. */
  function Identify(t: Tables, agent: string, e: Entry): Entry {
    var bound :=
      if e.installationIdentity.None? then
        var f := EnsureIdentity(t, e);
        f.(instanceId := Some(HashIdentity(t, [ENDPOINT_LABEL, agent, GetOr(f.instanceId, "")])))
      else e;
    EnsureIdentity(t, bound)
  }

  lemma EnsureIdempotent(t: Tables, e: Entry)
    requires t.Sane()
    ensures EnsureIdentity(t, EnsureIdentity(t, e)) == EnsureIdentity(t, e)
    ensures NormalEntry(t, EnsureIdentity(t, e)) == EnsureIdentity(t, e)
  {
    NormalEntryIdempotent(t, e);
    OptionalIdempotent(t, e.packageId);
    var f := EnsureIdentity(t, e);
    var n := NormalEntry(t, e);
    assert NormalEntry(t, f) == f;
  }

  lemma IdentifyIdempotent(t: Tables, agent: string, e: Entry)
    requires t.Sane()
    ensures Identify(t, agent, Identify(t, agent, e)) == Identify(t, agent, e)
    ensures NormalEntry(t, Identify(t, agent, e)) == Identify(t, agent, e)
    ensures Fixed(t, Identify(t, agent, e))
  {
    var bound :=
      if e.installationIdentity.None? then
        var f := EnsureIdentity(t, e);
        f.(instanceId := Some(HashIdentity(t, [ENDPOINT_LABEL, agent, GetOr(f.instanceId, "")])))
      else e;
    EnsureIdempotent(t, bound);
  }

  /** The entry's identity is the one its own fields give. */
  predicate Fixed(t: Tables, e: Entry) {
    EnsureIdentity(t, e) == e
  }

  ghost predicate PartsFit(t: Tables, e: Entry) {
    forall p :: p in IdentityParts(t, e) ==> t.Fits(p)
  }

  /** Identities collide only when product key, package, scope and instance all coincide: side-by-side
      installations stay apart. */
  lemma IdentityDetermines(t: Tables, a: Entry, b: Entry)
    requires t.CollisionFree() && Fixed(t, a) && Fixed(t, b) && PartsFit(t, a) && PartsFit(t, b)
    requires a.installationIdentity == b.installationIdentity
    ensures ComparisonKey(t, a) == ComparisonKey(t, b) && a.source == b.source
    ensures a.packageId == b.packageId && a.scope == b.scope && a.instanceId == b.instanceId
  {
    FixedFields(t, a);
    FixedFields(t, b);
    var x, y := IdentityParts(t, a), IdentityParts(t, b);
    HashInjective(t, x, y);
    assert x[1] == y[1] && x[2] == y[2] && x[3] == y[3] && x[4] == y[4];
    KeyDeterminesSource(t, a, b);
    assert forall s: Scope, u: Scope :: s.Name() == u.Name() ==> s == u;
  }

  lemma FixedFields(t: Tables, e: Entry)
    requires Fixed(t, e)
    ensures e.scope.Some? && e.instanceId.Some? && e.packageId != Some("")
    ensures e.installationIdentity == Some(HashIdentity(t, IdentityParts(t, e)))
    ensures e.productIdentity == Some(ComparisonKey(t, e)) && e.installLocation.None?
  {
    var n := NormalEntry(t, e);
    assert EnsureIdentity(t, e).packageId == NormalOptional(t, e.packageId);
  }

  /** The instance a fresh entry is given before it is bound to the agent. */
  function InstanceOf(t: Tables, e: Entry): string {
    GetOr(EnsureIdentity(t, e).instanceId, "")
  }

  /** Two freshly collected entries of one agent get the same identity only on the same instance evidence. */
  lemma SideBySideStaysApart(t: Tables, agent: string, a: Entry, b: Entry)
    requires t.Sane() && t.CollisionFree()
    requires a.installationIdentity.None? && b.installationIdentity.None?
    requires PartsFit(t, Identify(t, agent, a)) && PartsFit(t, Identify(t, agent, b))
    requires t.Fits(ENDPOINT_LABEL) && t.Fits(agent) && t.Fits(InstanceOf(t, a)) && t.Fits(InstanceOf(t, b))
    requires Identify(t, agent, a).installationIdentity == Identify(t, agent, b).installationIdentity
    ensures InstanceOf(t, a) == InstanceOf(t, b)
    ensures a.source == b.source
    ensures NormalOptional(t, a.packageId) == NormalOptional(t, b.packageId)
    ensures (if a.scope.Some? then a.scope.value else DefaultScope(a.source))
            == (if b.scope.Some? then b.scope.value else DefaultScope(b.source))
  {
    var x, y := Identify(t, agent, a), Identify(t, agent, b);
    IdentifyIdempotent(t, agent, a);
    IdentifyIdempotent(t, agent, b);
    IdentityDetermines(t, x, y);
    var p, q := [ENDPOINT_LABEL, agent, InstanceOf(t, a)], [ENDPOINT_LABEL, agent, InstanceOf(t, b)];
    assert x.instanceId == Some(HashIdentity(t, p)) && y.instanceId == Some(HashIdentity(t, q));
    HashInjective(t, p, q);
    assert p[2] == q[2];
    EnsureIdempotent(t, a);
    EnsureIdempotent(t, b);
    OptionalIdempotent(t, a.packageId);
    OptionalIdempotent(t, b.packageId);
  }

  /** Without collected instances, equal evidence means the same place, package or version. */
  lemma EvidenceDetermines(t: Tables, a: Entry, b: Entry)
    requires t.CollisionFree() && a.instanceId.None? && b.instanceId.None?
    requires t.Fits(INSTANCE_LABEL)
    requires forall e :: e == a || e == b ==>
               t.Fits(Evidence(NormalEntry(t, e).(packageId := NormalOptional(t, e.packageId))))
    requires InstanceOf(t, a) == InstanceOf(t, b)
    ensures Evidence(NormalEntry(t, a).(packageId := NormalOptional(t, a.packageId)))
            == Evidence(NormalEntry(t, b).(packageId := NormalOptional(t, b.packageId)))
  {
    var x := Evidence(NormalEntry(t, a).(packageId := NormalOptional(t, a.packageId)));
    var y := Evidence(NormalEntry(t, b).(packageId := NormalOptional(t, b.packageId)));
    HashInjective(t, [INSTANCE_LABEL, x], [INSTANCE_LABEL, y]);
    assert [INSTANCE_LABEL, x][1] == [INSTANCE_LABEL, y][1];
  }

  /** The text that tells two raw entries apart: their locations if both have one, their package ids if neither
      has a location, their versions if neither has either. */
  predicate ToldApart(t: Tables, a: Entry, b: Entry) {
    var x, y := WordsOf(t, a.installLocation), WordsOf(t, b.installLocation);
    var p, q := WordsOf(t, a.packageId), WordsOf(t, b.packageId);
    var v, w := WordsOf(t, a.version), WordsOf(t, b.version);
    || (x != [] && y != [] && x != y)
    || (x == y == [] && p != [] && q != [] && p != q)
    || (x == y == p == q == [] && v != [] && w != [] && v != w)
  }

  ghost predicate TextsFit(t: Tables, e: Entry) {
    && t.Fits(Join(WordsOf(t, e.installLocation))) && t.Fits(Join(WordsOf(t, e.packageId)))
    && t.Fits(Join(WordsOf(t, e.version))) && t.Fits(INSTANCE_LABEL) && t.Fits("unknown")
  }

  lemma EvidenceText(t: Tables, e: Entry)
    requires t.Sane()
    ensures var x, p, v := WordsOf(t, e.installLocation), WordsOf(t, e.packageId), WordsOf(t, e.version);
            Evidence(NormalEntry(t, e).(packageId := NormalOptional(t, e.packageId)))
            == if x != [] then Join(x) else if p != [] then Join(p) else if v != [] then Join(v) else "unknown"
  {
    OptionalKeepsWords(t, e.installLocation);
    OptionalKeepsWords(t, e.packageId);
    OptionalKeepsWords(t, e.version);
  }

  lemma JoinInjective(u: Unicode, s: string, r: string)
    requires u.white(' ') && Join(Words(u, s)) == Join(Words(u, r))
    ensures Words(u, s) == Words(u, r)
  {
    CollapseKeepsWords(u, s);
    CollapseKeepsWords(u, r);
  }

  lemma JoinOfInjective(t: Tables, a: Option<string>, b: Option<string>)
    requires t.Sane() && Join(WordsOf(t, a)) == Join(WordsOf(t, b))
    ensures WordsOf(t, a) == WordsOf(t, b)
  {
    assert Words(t.unicode, "") == [];
    JoinInjective(t.unicode, GetOr(a, ""), GetOr(b, ""));
  }

  /** Raw entries without an instance that are told apart by place, package or version get different ones. */
  lemma InstancesDiffer(t: Tables, a: Entry, b: Entry)
    requires t.Sane() && t.CollisionFree() && a.instanceId.None? && b.instanceId.None?
    requires TextsFit(t, a) && TextsFit(t, b) && ToldApart(t, a, b)
    ensures InstanceOf(t, a) != InstanceOf(t, b)
  {
    EvidenceText(t, a);
    EvidenceText(t, b);
    if InstanceOf(t, a) == InstanceOf(t, b) {
      EvidenceDetermines(t, a, b);
      EvidenceAlike(t, a, b);
    }
  }

  lemma EvidenceAlike(t: Tables, a: Entry, b: Entry)
    requires t.Sane() && ToldApart(t, a, b)
    ensures Evidence(NormalEntry(t, a).(packageId := NormalOptional(t, a.packageId)))
            != Evidence(NormalEntry(t, b).(packageId := NormalOptional(t, b.packageId)))
  {
    EvidenceText(t, a);
    EvidenceText(t, b);
    if Join(WordsOf(t, a.installLocation)) == Join(WordsOf(t, b.installLocation)) {
      JoinOfInjective(t, a.installLocation, b.installLocation);
    }
    if Join(WordsOf(t, a.packageId)) == Join(WordsOf(t, b.packageId)) {
      JoinOfInjective(t, a.packageId, b.packageId);
    }
    if Join(WordsOf(t, a.version)) == Join(WordsOf(t, b.version)) {
      JoinOfInjective(t, a.version, b.version);
    }
  }

  /** What identification adds to a fresh raw entry. */
  lemma FreshEntrySays(t: Tables, e: Entry)
    requires t.Sane()
    ensures var f := EnsureIdentity(t, e);
            && Tidied(t, e.packageId, f.packageId) && f.installLocation.None?
            && (e.instanceId.Some? ==> f.instanceId == e.instanceId) && f.instanceId.Some?
            && f.scope == Some(if e.scope.Some? then e.scope.value
                               else if e.source == Pip || e.source == Npm || e.source == Java then Scope.Runtime
                               else System)
  {
    OptionalKeepsWords(t, e.packageId);
  }

  /** One fresh entry found by two agents gets two instances, and so two identities. */
  lemma AgentsStayApart(t: Tables, a: string, b: string, e: Entry)
    requires t.Sane() && t.CollisionFree() && e.installationIdentity.None? && a != b
    requires t.Fits(ENDPOINT_LABEL) && t.Fits(a) && t.Fits(b) && t.Fits(InstanceOf(t, e))
    requires PartsFit(t, Identify(t, a, e)) && PartsFit(t, Identify(t, b, e))
    ensures Identify(t, a, e).installationIdentity != Identify(t, b, e).installationIdentity
  {
    var x, y := Identify(t, a, e), Identify(t, b, e);
    IdentifyIdempotent(t, a, e);
    IdentifyIdempotent(t, b, e);
    var p, q := [ENDPOINT_LABEL, a, InstanceOf(t, e)], [ENDPOINT_LABEL, b, InstanceOf(t, e)];
    assert x.instanceId == Some(HashIdentity(t, p)) && y.instanceId == Some(HashIdentity(t, q));
    assert p[1] != q[1];
    if x.installationIdentity == y.installationIdentity {
      IdentityDetermines(t, x, y);
      HashInjective(t, p, q);
    }
  }
}
