/** How two version strings compare: their digit runs by value, their other runs as text, separators not at all. */
module VersionOrder {
  import opened Options
  import opened Ordering

  const U128_LIMIT := 0x1_0000_0000_0000_0000_0000_0000_0000_0000

  /** The Unicode tables the code consults. */
  datatype Unicode = Unicode(alphanumeric: char -> bool, white: char -> bool) {
    /** ASCII digits are alphanumeric and white space is not. */
    ghost predicate Sane() {
      && (forall ch: char :: Digit(ch) ==> alphanumeric(ch))
      && (forall ch: char :: white(ch) ==> !alphanumeric(ch))
    }
  }

  datatype Chunk = Number(value: nat) | Text(text: string)

  predicate Digit(ch: char) { '0' <= ch <= '9' }

  predicate AllDigits(s: string) { forall i :: 0 <= i < |s| ==> Digit(s[i]) }

  function AsciiLower(s: string): string {
    seq(|s|, i requires 0 <= i < |s| => LowerChar(s[i]))
  }

  function LowerChar(ch: char): char {
    if 'A' <= ch <= 'Z' then (ch as int + 32) as char else ch
  }

  /** The number a run of digits denotes. */
  function Value(digits: string): nat
    requires AllDigits(digits)
  {
    if digits == [] then 0
    else 10 * Value(digits[..|digits| - 1]) + (digits[|digits| - 1] as int - '0' as int)
  }

  /** A digit run too long for 128 bits stays text, zeroes included. */
  function ChunkOf(head: string): Chunk
    requires head != []
  {
    if AllDigits(head) then (if Value(head) < U128_LIMIT then Number(Value(head)) else Text(head))
    else Text(AsciiLower(head))
  }

  /** Whether a run that started with `first` goes on at `ch`. */
  predicate Continues(u: Unicode, first: char, ch: char) {
    Digit(ch) == Digit(first) && u.alphanumeric(ch)
  }

  function RunLength(u: Unicode, first: char, s: string): (n: nat)
    ensures n <= |s|
    ensures forall i :: 0 <= i < n ==> Continues(u, first, s[i])
    ensures n < |s| ==> !Continues(u, first, s[n])
  {
    if s == [] || !Continues(u, first, s[0]) then 0 else 1 + RunLength(u, first, s[1..])
  }

  function Chunks(u: Unicode, s: string): seq<Chunk>
    decreases |s|
  {
    if s == [] then []
    else if !Continues(u, s[0], s[0]) then Chunks(u, s[1..])
    else
      var n := RunLength(u, s[0], s);
      [ChunkOf(s[..n])] + Chunks(u, s[n..])
  }

  function TrimStart(u: Unicode, s: string): string {
    if s == [] || !u.white(s[0]) then s else TrimStart(u, s[1..])
  }

  function TrimEnd(u: Unicode, s: string): string {
    if s == [] || !u.white(s[|s| - 1]) then s else TrimEnd(u, s[..|s| - 1])
  }

  function Trim(u: Unicode, s: string): string {
    TrimEnd(u, TrimStart(u, s))
  }

  function CompareChunk(a: Chunk, b: Chunk): Order {
    match (a, b)
    case (Number(x), Number(y)) => CompareInt(x, y)
    case (Text(x), Text(y)) => CompareText(x, y)
    case (Number(_), Text(_)) => Greater
    case (Text(_), Number(_)) => Less
  }

  function CompareChunks(a: seq<Chunk>, b: seq<Chunk>): Order {
    if a == [] then (if b == [] then Equal else Less)
    else if b == [] then Greater
    else CompareChunk(a[0], b[0]).Then(CompareChunks(a[1..], b[1..]))
  }

  function Compare(u: Unicode, left: Option<string>, right: Option<string>): Order {
    match (left, right)
    case (None, None) => Equal
    case (None, Some(_)) => Less
    case (Some(_), None) => Greater
    case (Some(a), Some(b)) => CompareChunks(Chunks(u, Trim(u, a)), Chunks(u, Trim(u, b)))
  }

  // ---------------------------------------------------------------- the loops

  method TrimZeroes(head: string) returns (trimmed: string)
    requires AllDigits(head)
    ensures AllDigits(trimmed) && Value(trimmed) == Value(head)
    ensures trimmed == [] || trimmed[0] != '0'
  {
    trimmed := head;
    while trimmed != [] && trimmed[0] == '0'
      invariant AllDigits(trimmed) && Value(trimmed) == Value(head)
    {
      ZeroPrefix(trimmed[1..]);
      assert trimmed == ['0'] + trimmed[1..];
      trimmed := trimmed[1..];
    }
  }

  method SkipSeparators(u: Unicode, rest: string) returns (start: nat)
    ensures start <= |rest| && Chunks(u, rest[start..]) == Chunks(u, rest)
    ensures start < |rest| ==> Digit(rest[start]) || u.alphanumeric(rest[start])
  {
    start := 0;
    while start < |rest| && !Digit(rest[start]) && !u.alphanumeric(rest[start])
      invariant start <= |rest| && Chunks(u, rest[start..]) == Chunks(u, rest)
    {
      assert rest[start..][1..] == rest[start + 1..];
      start := start + 1;
    }
  }

  method MakeChunk(head: string, numeric: bool) returns (chunk: Chunk)
    requires head != [] && (if numeric then AllDigits(head) else !Digit(head[0]))
    ensures chunk == ChunkOf(head)
  {
    if numeric {
      var trimmed := TrimZeroes(head);
      chunk := if trimmed == [] then Number(0)
               else if Value(trimmed) < U128_LIMIT then Number(Value(trimmed)) else Text(head);
    } else {
      chunk := Text(AsciiLower(head));
    }
  }

  method RunEnd(u: Unicode, rest: string, start: nat) returns (end: nat)
    requires u.Sane() && start < |rest| && (Digit(rest[start]) || u.alphanumeric(rest[start]))
    ensures start < end <= |rest| && end - start == RunLength(u, rest[start], rest[start..])
    ensures forall k :: start <= k < end ==> Continues(u, rest[start], rest[k])
  {
    var numeric := Digit(rest[start]);
    end := start;
    while end < |rest| && Digit(rest[end]) == numeric && u.alphanumeric(rest[end])
      invariant start <= end <= |rest|
      invariant forall k :: start <= k < end ==> Continues(u, rest[start], rest[k])
    {
      end := end + 1;
    }
    RunLengthIs(u, rest[start], rest[start..], end - start);
  }

  lemma HeadChunk(u: Unicode, s: string, n: nat)
    requires u.Sane() && s != [] && (Digit(s[0]) || u.alphanumeric(s[0])) && n == RunLength(u, s[0], s) && n > 0
    ensures Chunks(u, s) == [ChunkOf(s[..n])] + Chunks(u, s[n..])
  {}

  /** One step of the chunk iterator: `rest` is its state. */
  method NextChunk(u: Unicode, rest: string) returns (chunk: Option<Chunk>, rest': string)
    requires u.Sane()
    ensures chunk.None? ==> Chunks(u, rest) == []
    ensures chunk.Some? ==> Chunks(u, rest) == [chunk.value] + Chunks(u, rest') && |rest'| < |rest|
  {
    var start := SkipSeparators(u, rest);
    if start == |rest| {
      return None, [];
    }
    var end := RunEnd(u, rest, start);
    var head := rest[start..end];
    SliceOfRun(rest, start, end);
    HeadChunk(u, rest[start..], end - start);
    var made := MakeChunk(head, Digit(rest[start]));
    return Some(made), rest[end..];
  }

  lemma SliceOfRun(s: string, i: nat, j: nat)
    requires i < j <= |s|
    ensures s[i..][..j - i] == s[i..j] && s[i..][j - i..] == s[j..] && s[i..][0] == s[i] && s[i..j][0] == s[i]
    ensures forall k :: 0 <= k < j - i ==> s[i..j][k] == s[i + k]
  {}

  method CompareVersions(u: Unicode, left: Option<string>, right: Option<string>) returns (order: Order)
    requires u.Sane()
    ensures order == Compare(u, left, right)
  {
    if left.None? || right.None? {
      return if left.Some? then Greater else if right.Some? then Less else Equal;
    }
    var a, b := Trim(u, left.value), Trim(u, right.value);
    while true
      invariant CompareChunks(Chunks(u, a), Chunks(u, b)) == Compare(u, left, right)
      decreases |a|
    {
      var x, a' := NextChunk(u, a);
      var y, b' := NextChunk(u, b);
      if x.None? || y.None? {
        return if x.Some? then Greater else if y.Some? then Less else Equal;
      }
      order := CompareChunk(x.value, y.value);
      if order != Equal {
        return;
      }
      a, b := a', b';
    }
  }

  // ---------------------------------------------------------------- a total preorder

  lemma ChunkFlip(a: Chunk, b: Chunk)
    ensures CompareChunk(b, a) == CompareChunk(a, b).Flip()
    ensures CompareChunk(a, b).Equal? <==> a == b
  {
    if a.Text? && b.Text? {
      TextFlip(a.text, b.text);
    }
  }

  lemma ChunkChains(a: Chunk, b: Chunk, c: Chunk)
    ensures Chains(CompareChunk(a, b), CompareChunk(b, c), CompareChunk(a, c))
  {
    if a.Text? && b.Text? && c.Text? {
      TextChains(a.text, b.text, c.text);
    }
  }

  lemma {:induction false} ChunksFlip(a: seq<Chunk>, b: seq<Chunk>)
    ensures CompareChunks(b, a) == CompareChunks(a, b).Flip()
    ensures CompareChunks(a, b).Equal? <==> a == b
  {
    if a != [] && b != [] {
      ChunkFlip(a[0], b[0]);
      ChunksFlip(a[1..], b[1..]);
      assert a == [a[0]] + a[1..] && b == [b[0]] + b[1..];
    }
  }

  lemma {:induction false} ChunksChain(a: seq<Chunk>, b: seq<Chunk>, c: seq<Chunk>)
    ensures Chains(CompareChunks(a, b), CompareChunks(b, c), CompareChunks(a, c))
  {
    if a != [] && b != [] && c != [] {
      ChunkChains(a[0], b[0], c[0]);
      ChunksChain(a[1..], b[1..], c[1..]);
    }
  }

  /** Swapping the arguments reverses the answer; in particular the order is reflexive and total. */
  lemma CompareFlip(u: Unicode, a: Option<string>, b: Option<string>)
    ensures Compare(u, b, a) == Compare(u, a, b).Flip()
    ensures Compare(u, a, a).Equal?
    ensures !Compare(u, None, a).Greater?
  {
    if a.Some? && b.Some? {
      ChunksFlip(Chunks(u, Trim(u, a.value)), Chunks(u, Trim(u, b.value)));
    }
    if a.Some? {
      ChunksFlip(Chunks(u, Trim(u, a.value)), Chunks(u, Trim(u, a.value)));
    }
  }

  lemma CompareChains(u: Unicode, a: Option<string>, b: Option<string>, c: Option<string>)
    ensures Chains(Compare(u, a, b), Compare(u, b, c), Compare(u, a, c))
  {
    if a.Some? && b.Some? && c.Some? {
      ChunksChain(Chunks(u, Trim(u, a.value)), Chunks(u, Trim(u, b.value)), Chunks(u, Trim(u, c.value)));
    }
  }

  // ---------------------------------------------------------------- digit runs

  lemma {:induction false} ZeroPrefix(digits: string)
    requires AllDigits(digits)
    ensures AllDigits(['0'] + digits) && Value(['0'] + digits) == Value(digits)
  {
    if digits != [] {
      var init := digits[..|digits| - 1];
      ZeroPrefix(init);
      assert (['0'] + digits)[..|digits|] == ['0'] + init;
    }
  }

  lemma {:induction false} RunLengthIs(u: Unicode, first: char, s: string, n: nat)
    requires n <= |s| && (forall i :: 0 <= i < n ==> Continues(u, first, s[i]))
    requires n < |s| ==> !Continues(u, first, s[n])
    ensures RunLength(u, first, s) == n
  {
    if n != 0 {
      RunLengthIs(u, first, s[1..], n - 1);
    }
  }

  predicate EndsRun(s: string) { s == [] || !Digit(s[|s| - 1]) }
  predicate StartsRun(s: string) { s == [] || !Digit(s[0]) }

  lemma DigitsFirst(u: Unicode, digits: string, post: string)
    requires u.Sane() && StartsRun(post) && AllDigits(digits) && digits != []
    ensures Chunks(u, digits + post) == [ChunkOf(digits)] + Chunks(u, post)
  {
    var s := digits + post;
    assert forall i :: 0 <= i < |digits| ==> s[i] == digits[i];
    assert |digits| < |s| ==> s[|digits|] == post[0];
    TakeRun(u, s, |digits|);
    assert s[..|digits|] == digits && s[|digits|..] == post;
  }

  /** No run goes on from `pre` into `tail`. */
  predicate Boundary(u: Unicode, pre: string, tail: string) {
    || pre == [] || tail == []
    || !u.alphanumeric(pre[|pre| - 1]) || !u.alphanumeric(tail[0]) || Digit(pre[|pre| - 1]) != Digit(tail[0])
  }

  /** Chunking splits wherever no run goes on. */
  lemma {:induction false} ChunksSplit(u: Unicode, pre: string, tail: string)
    requires Boundary(u, pre, tail)
    ensures Chunks(u, pre + tail) == Chunks(u, pre) + Chunks(u, tail)
    decreases |pre|
  {
    var s := pre + tail;
    if pre == [] {
      assert s == tail;
    } else if !Continues(u, pre[0], pre[0]) {
      assert s[1..] == pre[1..] + tail;
      ChunksSplit(u, pre[1..], tail);
    } else {
      var n := RunLength(u, pre[0], pre);
      RunEndsAtBoundary(u, pre, tail, n);
      TakeRun(u, pre, n);
      TakeRun(u, s, n);
      SliceConcat(pre, tail, n);
      ChunksSplit(u, pre[n..], tail);
    }
  }

  lemma RunEndsAtBoundary(u: Unicode, pre: string, tail: string, n: nat)
    requires Boundary(u, pre, tail) && pre != [] && Continues(u, pre[0], pre[0]) && n == RunLength(u, pre[0], pre)
    ensures 0 < n <= |pre| && Boundary(u, pre[n..], tail)
    ensures var s := pre + tail;
            && s[0] == pre[0] && (forall i :: 0 <= i < n ==> Continues(u, s[0], s[i]))
            && (n < |s| ==> !Continues(u, s[0], s[n]))
  {
    var s := pre + tail;
    assert forall i :: 0 <= i < n ==> s[i] == pre[i];
    assert n < |s| ==> s[n] == if n < |pre| then pre[n] else tail[0];
  }

  lemma SliceConcat(a: string, b: string, n: nat)
    requires n <= |a|
    ensures (a + b)[..n] == a[..n] && (a + b)[n..] == a[n..] + b
  {}

  /** A digit run between non-digits is a chunk of its own, whatever surrounds it. */
  lemma ChunksAround(u: Unicode, pre: string, digits: string, post: string)
    requires u.Sane() && Boundary(u, pre, digits) && StartsRun(post) && AllDigits(digits) && digits != []
    ensures Chunks(u, pre + digits + post) == Chunks(u, pre) + [ChunkOf(digits)] + Chunks(u, post)
  {
    assert pre + digits + post == pre + (digits + post);
    assert Digit(digits[0]);
    ChunksSplit(u, pre, digits + post);
    DigitsFirst(u, digits, post);
  }

  lemma TakeRun(u: Unicode, s: string, n: nat)
    requires 0 < n <= |s| && (forall i :: 0 <= i < n ==> Continues(u, s[0], s[i]))
    requires n < |s| ==> !Continues(u, s[0], s[n])
    ensures Chunks(u, s) == [ChunkOf(s[..n])] + Chunks(u, s[n..])
  {
    RunLengthIs(u, s[0], s, n);
  }

  lemma {:induction false} TrailingSeparator(u: Unicode, s: string, ch: char)
    requires u.Sane() && !u.alphanumeric(ch)
    ensures Chunks(u, s + [ch]) == Chunks(u, s)
    decreases |s|
  {
    var t := s + [ch];
    if s == [] {
      assert t[1..] == [];
    } else if !Continues(u, s[0], s[0]) {
      assert t[1..] == s[1..] + [ch];
      TrailingSeparator(u, s[1..], ch);
    } else {
      var n := RunLength(u, s[0], s);
      RunLengthIs(u, t[0], t, n);
      assert t[..n] == s[..n] && t[n..] == s[n..] + [ch];
      TrailingSeparator(u, s[n..], ch);
    }
  }

  lemma {:induction false} TrimEndKeepsChunks(u: Unicode, s: string)
    requires u.Sane()
    ensures Chunks(u, TrimEnd(u, s)) == Chunks(u, s)
  {
    if s != [] && u.white(s[|s| - 1]) {
      TrimEndKeepsChunks(u, s[..|s| - 1]);
      assert s == s[..|s| - 1] + [s[|s| - 1]];
      TrailingSeparator(u, s[..|s| - 1], s[|s| - 1]);
    }
  }

  lemma {:induction false} TrimStartKeepsChunks(u: Unicode, s: string)
    requires u.Sane()
    ensures Chunks(u, TrimStart(u, s)) == Chunks(u, s)
  {
    if s != [] && u.white(s[0]) {
      TrimStartKeepsChunks(u, s[1..]);
    }
  }

  lemma TrimKeepsChunks(u: Unicode, s: string)
    requires u.Sane()
    ensures Chunks(u, Trim(u, s)) == Chunks(u, s)
  {
    TrimStartKeepsChunks(u, s);
    TrimEndKeepsChunks(u, TrimStart(u, s));
  }

  function Zeroes(k: nat): string {
    seq(k, _ => '0')
  }

  lemma {:induction false} PaddedValue(k: nat, digits: string)
    requires AllDigits(digits)
    ensures AllDigits(Zeroes(k) + digits) && Value(Zeroes(k) + digits) == Value(digits)
  {
    if k == 0 {
      assert Zeroes(0) + digits == digits;
    } else {
      PaddedValue(k - 1, digits);
      assert Zeroes(k) + digits == ['0'] + (Zeroes(k - 1) + digits);
      ZeroPrefix(Zeroes(k - 1) + digits);
    }
  }

  /** Two digit runs at the same place compare by their numeric values, whatever follows them, and only on a tie
      by what follows, provided both values fit in 128 bits. */
  lemma {:induction false} DigitRunsCompareByValue(u: Unicode, pre: string, a: string, p: string, b: string, q: string)
    requires u.Sane() && EndsRun(pre) && AllDigits(a) && AllDigits(b) && a != [] && b != []
    requires StartsRun(p) && StartsRun(q)
    requires Value(a) < U128_LIMIT && Value(b) < U128_LIMIT
    ensures Compare(u, Some(pre + a + p), Some(pre + b + q))
            == CompareInt(Value(a), Value(b)).Then(Compare(u, Some(p), Some(q)))
    ensures Value(a) < Value(b) ==> Compare(u, Some(pre + a + p), Some(pre + b + q)).Less?
    ensures Value(a) > Value(b) ==> Compare(u, Some(pre + a + p), Some(pre + b + q)).Greater?
  {
    ChunksAround(u, pre, a, p);
    ChunksAround(u, pre, b, q);
    ComparedByChunks(u, pre + a + p, pre + b + q);
    ComparedByChunks(u, p, q);
    FirstDifferenceDecides(Chunks(u, pre), ChunkOf(a), Chunks(u, p), ChunkOf(b), Chunks(u, q));
  }

  lemma {:induction false} ComparedByChunks(u: Unicode, a: string, b: string)
    requires u.Sane()
    ensures Compare(u, Some(a), Some(b)) == CompareChunks(Chunks(u, a), Chunks(u, b))
  {
    TrimKeepsChunks(u, a);
    TrimKeepsChunks(u, b);
  }

  lemma FirstDifferenceDecides(pre: seq<Chunk>, c: Chunk, p: seq<Chunk>, d: Chunk, q: seq<Chunk>)
    ensures CompareChunks(pre + [c] + p, pre + [d] + q) == CompareChunk(c, d).Then(CompareChunks(p, q))
  {
    CommonPrefix(pre, [c] + p, [d] + q);
    assert pre + [c] + p == pre + ([c] + p) && pre + [d] + q == pre + ([d] + q);
    assert ([c] + p)[1..] == p && ([d] + q)[1..] == q;
  }

  lemma {:induction false} CommonPrefix(p: seq<Chunk>, a: seq<Chunk>, b: seq<Chunk>)
    ensures CompareChunks(p + a, p + b) == CompareChunks(a, b)
  {
    if p == [] {
      assert p + a == a && p + b == b;
    } else {
      assert (p + a)[1..] == p[1..] + a && (p + b)[1..] == p[1..] + b;
      ChunkFlip(p[0], p[0]);
      CommonPrefix(p[1..], a, b);
    }
  }

  /** Leading zeroes leave a version unchanged exactly when the digit run fits in 128 bits. */
  lemma {:induction false} LeadingZeroes(u: Unicode, pre: string, k: nat, digits: string, post: string)
    requires u.Sane() && EndsRun(pre) && StartsRun(post) && AllDigits(digits) && digits != [] && k > 0
    ensures Compare(u, Some(pre + digits + post), Some(pre + (Zeroes(k) + digits) + post)).Equal?
            <==> Value(digits) < U128_LIMIT
  {
    var padded := Zeroes(k) + digits;
    PaddedValue(k, digits);
    ChunksAround(u, pre, digits, post);
    ChunksAround(u, pre, padded, post);
    TrimKeepsChunks(u, pre + digits + post);
    TrimKeepsChunks(u, pre + padded + post);
    ChunksFlip(Chunks(u, pre + digits + post), Chunks(u, pre + padded + post));
    var i := |Chunks(u, pre)|;
    assert Chunks(u, pre + digits + post)[i] == ChunkOf(digits);
    assert Chunks(u, pre + padded + post)[i] == ChunkOf(padded);
    assert |padded| != |digits|;
  }

  function Pow10(k: nat): nat { if k == 0 then 1 else 10 * Pow10(k - 1) }

  /** The value of a digit run is decimal. */
  lemma {:induction false} ValueIsDecimal(a: string, b: string)
    requires AllDigits(a) && AllDigits(b)
    ensures AllDigits(a + b) && Value(a + b) == Value(a) * Pow10(|b|) + Value(b)
    ensures |b| == 1 ==> Value(b) == b[0] as int - '0' as int
  {
    var s := a + b;
    if b == [] {
      assert s == a;
    } else {
      var init := b[..|b| - 1];
      ValueIsDecimal(a, init);
      assert s[..|s| - 1] == a + init;
      Distribute(Value(a), Pow10(|init|), Value(init));
    }
  }

  lemma Distribute(v: nat, p: nat, w: nat)
    ensures 10 * (v * p + w) == v * (10 * p) + 10 * w
  {}

  // ---------------------------------------------------------------- which of two versions is the newer

  lemma {:induction false} HoldsAChunk(u: Unicode, s: string, i: nat)
    requires i < |s| && u.alphanumeric(s[i])
    ensures Chunks(u, s) != []
  {
    if !Continues(u, s[0], s[0]) {
      HoldsAChunk(u, s[1..], i - 1);
    }
  }

  /** A version that goes on after another one is the newer. */
  lemma ExtensionIsNewer(u: Unicode, a: string, tail: string, i: nat)
    requires u.Sane() && Boundary(u, a, tail) && i < |tail| && u.alphanumeric(tail[i])
    ensures Compare(u, Some(a), Some(a + tail)).Less? && Compare(u, Some(a + tail), Some(a)).Greater?
  {
    ChunksSplit(u, a, tail);
    HoldsAChunk(u, tail, i);
    ComparedByChunks(u, a, a + tail);
    CommonPrefix(Chunks(u, a), [], Chunks(u, tail));
    assert Chunks(u, a) + [] == Chunks(u, a);
    CompareFlip(u, Some(a), Some(a + tail));
  }

  predicate Letters(u: Unicode, s: string) {
    s != [] && forall i :: 0 <= i < |s| ==> u.alphanumeric(s[i]) && !Digit(s[i])
  }

  lemma LettersFirst(u: Unicode, letters: string, post: string)
    requires Letters(u, letters) && Boundary(u, letters, post)
    ensures Chunks(u, letters + post) == [Text(AsciiLower(letters))] + Chunks(u, post)
  {
    var s := letters + post;
    assert forall i :: 0 <= i < |letters| ==> s[i] == letters[i];
    assert |letters| < |s| ==> s[|letters|] == post[0];
    TakeRun(u, s, |letters|);
    assert s[..|letters|] == letters && s[|letters|..] == post;
  }

  lemma LettersAround(u: Unicode, pre: string, letters: string, post: string)
    requires Boundary(u, pre, letters) && Letters(u, letters) && Boundary(u, letters, post)
    ensures Chunks(u, pre + letters + post) == Chunks(u, pre) + [Text(AsciiLower(letters))] + Chunks(u, post)
  {
    assert pre + letters + post == pre + (letters + post);
    ChunksSplit(u, pre, letters + post);
    LettersFirst(u, letters, post);
  }

  /** At the same place a digit run that fits in 128 bits outranks a letter run. */
  lemma {:induction false} NumberOutranksText(u: Unicode, pre: string, digits: string, p: string,
                                              letters: string, q: string)
    requires u.Sane() && Boundary(u, pre, digits) && AllDigits(digits) && digits != [] && Value(digits) < U128_LIMIT
    requires StartsRun(p)
    requires Boundary(u, pre, letters) && Letters(u, letters) && Boundary(u, letters, q)
    ensures Compare(u, Some(pre + digits + p), Some(pre + letters + q)).Greater?
    ensures Compare(u, Some(pre + letters + q), Some(pre + digits + p)).Less?
  {
    ChunksAround(u, pre, digits, p);
    LettersAround(u, pre, letters, q);
    ComparedByChunks(u, pre + digits + p, pre + letters + q);
    FirstDifferenceDecides(Chunks(u, pre), ChunkOf(digits), Chunks(u, p), Text(AsciiLower(letters)), Chunks(u, q));
    CompareFlip(u, Some(pre + digits + p), Some(pre + letters + q));
  }

  /** `l` is `s` with its ASCII capitals made small. */
  predicate Folds(s: string, l: string) {
    |l| == |s| && forall i :: 0 <= i < |s| ==>
      if 'A' <= s[i] <= 'Z' then l[i] as int == s[i] as int - 'A' as int + 'a' as int else l[i] == s[i]
  }

  /** At the same place two letter runs compare as text in lower case, and only on a tie by what follows. */
  lemma {:induction false} LetterRunsCompareFolded(u: Unicode, pre: string, a: string, p: string, b: string, q: string,
                                                   x: string, y: string)
    requires u.Sane() && Folds(a, x) && Folds(b, y)
    requires Boundary(u, pre, a) && Letters(u, a) && Boundary(u, a, p)
    requires Boundary(u, pre, b) && Letters(u, b) && Boundary(u, b, q)
    ensures Compare(u, Some(pre + a + p), Some(pre + b + q)) == CompareText(x, y).Then(Compare(u, Some(p), Some(q)))
  {
    assert AsciiLower(a) == x && AsciiLower(b) == y;
    LettersAround(u, pre, a, p);
    LettersAround(u, pre, b, q);
    ComparedByChunks(u, pre + a + p, pre + b + q);
    ComparedByChunks(u, p, q);
    FirstDifferenceDecides(Chunks(u, pre), Text(x), Chunks(u, p), Text(y), Chunks(u, q));
  }

  /** Trimming takes white space off both ends and stops at anything else. */
  lemma TrimSays(u: Unicode, s: string) returns (i: nat, j: nat)
    ensures i <= j <= |s| && Trim(u, s) == s[i..j]
    ensures forall k :: 0 <= k < |s| && !(i <= k < j) ==> u.white(s[k])
    ensures i < j ==> !u.white(s[i]) && !u.white(s[j - 1])
  {
    i := TrimStartSays(u, s);
    var n := TrimEndSays(u, s[i..]);
    j := i + n;
    assert s[i..][..n] == s[i..j];
    forall k | j <= k < |s| ensures u.white(s[k]) { assert s[i..][k - i] == s[k]; }
  }

  lemma {:induction false} TrimStartSays(u: Unicode, s: string) returns (i: nat)
    ensures i <= |s| && TrimStart(u, s) == s[i..] && (i < |s| ==> !u.white(s[i]))
    ensures forall k :: 0 <= k < i ==> u.white(s[k])
  {
    if s == [] || !u.white(s[0]) {
      i := 0;
    } else {
      var n := TrimStartSays(u, s[1..]);
      i := n + 1;
      assert s[1..][n..] == s[i..];
    }
  }

  lemma {:induction false} TrimEndSays(u: Unicode, s: string) returns (j: nat)
    ensures j <= |s| && TrimEnd(u, s) == s[..j] && (j > 0 ==> !u.white(s[j - 1]))
    ensures forall k :: j <= k < |s| ==> u.white(s[k])
  {
    if s == [] || !u.white(s[|s| - 1]) {
      j := |s|;
    } else {
      j := TrimEndSays(u, s[..|s| - 1]);
      assert s[..|s| - 1][..j] == s[..j];
    }
  }
}
