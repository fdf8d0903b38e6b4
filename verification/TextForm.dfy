/** Whitespace-collapsed text: words joined by single spaces. */
module TextForm {
  import opened VersionOrder

  /** Index of the first white character, or the length. */
  function WordEnd(u: Unicode, s: string): (n: nat)
    ensures n <= |s| && (forall i :: 0 <= i < n ==> !u.white(s[i])) && (n < |s| ==> u.white(s[n]))
  {
    if s == [] || u.white(s[0]) then 0 else 1 + WordEnd(u, s[1..])
  }

  function Words(u: Unicode, s: string): seq<string>
    decreases |s|
  {
    if s == [] then []
    else if u.white(s[0]) then Words(u, s[1..])
    else
      var n := WordEnd(u, s);
      [s[..n]] + Words(u, s[n..])
  }

  function Join(words: seq<string>): string {
    if words == [] then ""
    else if |words| == 1 then words[0]
    else words[0] + " " + Join(words[1..])
  }

  function Collapse(u: Unicode, s: string): string {
    Join(Words(u, s))
  }

  /** No white space but single inner blanks. */
  ghost predicate Collapsed(u: Unicode, s: string) {
    forall i :: 0 <= i < |s| && u.white(s[i]) ==>
      s[i] == ' ' && 0 < i < |s| - 1 && !u.white(s[i - 1]) && !u.white(s[i + 1])
  }

  lemma {:induction false} WordsAreSolid(u: Unicode, s: string)
    ensures forall w :: w in Words(u, s) ==> w != [] && forall i :: 0 <= i < |w| ==> !u.white(w[i])
    decreases |s|
  {
    if s != [] {
      if u.white(s[0]) {
        WordsAreSolid(u, s[1..]);
      } else {
        WordsAreSolid(u, s[WordEnd(u, s)..]);
      }
    }
  }

  lemma {:induction false} JoinCollapsed(u: Unicode, words: seq<string>)
    requires u.white(' ')
    requires forall w :: w in words ==> w != [] && forall i :: 0 <= i < |w| ==> !u.white(w[i])
    ensures Collapsed(u, Join(words))
    ensures words != [] ==> Join(words) != [] && !u.white(Join(words)[0])
  {
    if |words| > 1 {
      JoinCollapsed(u, words[1..]);
      var head, tail := words[0], Join(words[1..]);
      var s := head + " " + tail;
      assert words[0] in words;
      forall i | 0 <= i < |s| && u.white(s[i])
        ensures s[i] == ' ' && 0 < i < |s| - 1 && !u.white(s[i - 1]) && !u.white(s[i + 1])
      {
        if i > |head| {
          assert s[i] == tail[i - |head| - 1];
          assert s[i + 1] == tail[i - |head|];
          assert i - 1 > |head| ==> s[i - 1] == tail[i - |head| - 2];
        }
      }
    } else if |words| == 1 {
      assert words[0] in words;
    }
  }

  lemma {:induction false} CollapsedFixed(u: Unicode, s: string)
    requires Collapsed(u, s)
    ensures Collapse(u, s) == s
    ensures s != [] ==> Words(u, s) != []
    decreases |s|
  {
    if s != [] {
      assert !u.white(s[0]);
      var n := WordEnd(u, s);
      if n < |s| {
        var rest := s[n + 1..];
        assert u.white(s[n]) && !u.white(s[n + 1]);
        AfterBlank(u, s, n);
        CollapsedFixed(u, rest);
        assert s[n..][0] == ' ' && s[n..][1..] == rest;
        assert Words(u, s[n..]) == Words(u, rest);
        assert s == s[..n] + " " + rest;
      } else {
        assert s[..n] == s && s[n..] == [];
        assert Words(u, s) == [s];
      }
    }
  }

  lemma AfterBlank(u: Unicode, s: string, n: nat)
    requires Collapsed(u, s) && n < |s| && u.white(s[n])
    ensures Collapsed(u, s[n + 1..])
  {
    var rest := s[n + 1..];
    forall i | 0 <= i < |rest| && u.white(rest[i])
      ensures rest[i] == ' ' && 0 < i < |rest| - 1 && !u.white(rest[i - 1]) && !u.white(rest[i + 1])
    {
      assert rest[i] == s[n + 1 + i];
      assert !u.white(s[n + 1]);
    }
  }

  /** Collapsing is idempotent, and its results are the collapsed strings. */
  lemma CollapseIdempotent(u: Unicode, s: string)
    requires u.white(' ')
    ensures Collapsed(u, Collapse(u, s)) && Collapse(u, Collapse(u, s)) == Collapse(u, s)
  {
    WordsAreSolid(u, s);
    JoinCollapsed(u, Words(u, s));
    CollapsedFixed(u, Collapse(u, s));
  }

  /** Gaps and words in turn, a gap first and last. */
  function Weave(gaps: seq<string>, words: seq<string>): string
    requires |gaps| == |words| + 1
  {
    if words == [] then gaps[0] else gaps[0] + words[0] + Weave(gaps[1..], words[1..])
  }

  /** What words are: the text is the words with white gaps around them, the inner gaps not empty. No other
      division of the text has that form. */
  ghost predicate Divides(u: Unicode, gaps: seq<string>, words: seq<string>, s: string) {
    && |gaps| == |words| + 1 && s == Weave(gaps, words)
    && (forall g :: 0 <= g < |gaps| ==> White(u, gaps[g]))
    && (forall g :: 0 < g < |gaps| - 1 ==> gaps[g] != [])
    && (forall w :: 0 <= w < |words| ==> Solid(u, words[w]))
  }

  predicate White(u: Unicode, s: string) { forall i :: 0 <= i < |s| ==> u.white(s[i]) }
  predicate Solid(u: Unicode, s: string) { s != [] && forall i :: 0 <= i < |s| ==> !u.white(s[i]) }

  lemma {:induction false} WordsDivide(u: Unicode, s: string) returns (gaps: seq<string>)
    ensures Divides(u, gaps, Words(u, s), s)
    decreases |s|
  {
    if s == [] {
      gaps := [[]];
    } else if u.white(s[0]) {
      var rest := WordsDivide(u, s[1..]);
      gaps := [[s[0]] + rest[0]] + rest[1..];
      GrowGap(s[0], rest, Words(u, s));
      assert s == [s[0]] + s[1..];
    } else {
      var n := WordEnd(u, s);
      var rest := WordsDivide(u, s[n..]);
      gaps := [[]] + rest;
      StartsWithGap(u, rest, Words(u, s[n..]), s[n..]);
      assert gaps[1..] == rest && s == s[..n] + s[n..];
    }
  }

  lemma GrowGap(ch: char, gaps: seq<string>, words: seq<string>)
    requires |gaps| == |words| + 1
    ensures Weave([[ch] + gaps[0]] + gaps[1..], words) == [ch] + Weave(gaps, words)
  {
    var more := [[ch] + gaps[0]] + gaps[1..];
    assert more[1..] == gaps[1..] && more[0] == [ch] + gaps[0];
  }

  /** After a word the text ends or goes on with a gap. */
  lemma StartsWithGap(u: Unicode, gaps: seq<string>, words: seq<string>, s: string)
    requires Divides(u, gaps, words, s) && (s != [] ==> u.white(s[0]))
    ensures words != [] ==> gaps[0] != []
  {
    WordFirst(u, gaps, words);
  }

  lemma WordFirst(u: Unicode, gaps: seq<string>, words: seq<string>)
    requires |gaps| == |words| + 1 && forall w :: 0 <= w < |words| ==> Solid(u, words[w])
    ensures words != [] && gaps[0] == [] ==> Weave(gaps, words) != [] && !u.white(Weave(gaps, words)[0])
  {
    if words != [] && gaps[0] == [] {
      assert Weave(gaps, words)[0] == words[0][0];
    }
  }

  /** Text that is divided into words has these words. */
  lemma {:induction false} DividedWords(u: Unicode, gaps: seq<string>, words: seq<string>, s: string)
    requires Divides(u, gaps, words, s)
    ensures Words(u, s) == words
    decreases |words|, |s|
  {
    if gaps[0] != [] {
      var rest := [gaps[0][1..]] + gaps[1..];
      assert White(u, gaps[0]);
      GrowGap(gaps[0][0], rest, words);
      assert [gaps[0][0]] + rest[0] == gaps[0] && rest[1..] == gaps[1..];
      assert [[gaps[0][0]] + rest[0]] + rest[1..] == [gaps[0]] + gaps[1..] == gaps;
      assert Divides(u, rest, words, s[1..]);
      DividedWords(u, rest, words, s[1..]);
    } else if words != [] {
      var w, tail := words[0], Weave(gaps[1..], words[1..]);
      assert s == w + tail && Solid(u, w);
      TailStartsWhite(u, gaps, words);
      WordEndIs(u, s, |w|);
      assert Divides(u, gaps[1..], words[1..], tail);
      DividedWords(u, gaps[1..], words[1..], tail);
      assert s[..|w|] == w && s[|w|..] == tail;
    }
  }

  lemma TailStartsWhite(u: Unicode, gaps: seq<string>, words: seq<string>)
    requires words != [] && |gaps| == |words| + 1
    requires forall g :: 0 <= g < |gaps| ==> White(u, gaps[g])
    requires forall g :: 0 < g < |gaps| - 1 ==> gaps[g] != []
    ensures var tail := Weave(gaps[1..], words[1..]); tail != [] ==> u.white(tail[0])
  {
    var tail := Weave(gaps[1..], words[1..]);
    assert White(u, gaps[1]);
    if tail != [] {
      assert gaps[1] != [];
      assert tail[0] == gaps[1][0];
    }
  }

  lemma {:induction false} WordEndIs(u: Unicode, s: string, n: nat)
    requires n <= |s| && (forall i :: 0 <= i < n ==> !u.white(s[i])) && (n < |s| ==> u.white(s[n]))
    ensures WordEnd(u, s) == n
  {
    if n > 0 {
      WordEndIs(u, s[1..], n - 1);
    }
  }

  /** Collapsing keeps the words, and leaves nothing exactly when there are none. */
  lemma CollapseKeepsWords(u: Unicode, s: string)
    requires u.white(' ')
    ensures Words(u, Collapse(u, s)) == Words(u, s)
    ensures Collapse(u, s) == "" <==> Words(u, s) == []
  {
    var words := Words(u, s);
    var gaps := WordsDivide(u, s);
    var blanks := JoinDivides(u, words);
    DividedWords(u, blanks, words, Join(words));
  }

  lemma {:induction false} JoinDivides(u: Unicode, words: seq<string>) returns (gaps: seq<string>)
    requires u.white(' ') && forall w :: 0 <= w < |words| ==> Solid(u, words[w])
    ensures Divides(u, gaps, words, Join(words))
  {
    if |words| <= 1 {
      gaps := if words == [] then [[]] else [[], []];
      assert words != [] ==> gaps[1..] == [[]] && words[1..] == [];
    } else {
      var rest := JoinDivides(u, words[1..]);
      var inner := [" " + rest[0]] + rest[1..];
      gaps := [[]] + inner;
      GrowGap(' ', rest, words[1..]);
      assert gaps[1..] == inner;
    }
  }

  function ChunksOfWords(u: Unicode, words: seq<string>): seq<Chunk> {
    if words == [] then [] else Chunks(u, words[0]) + ChunksOfWords(u, words[1..])
  }

  lemma {:induction false} ChunksOfWhite(u: Unicode, s: string)
    requires u.Sane() && White(u, s)
    ensures Chunks(u, s) == []
  {
    if s != [] {
      ChunksOfWhite(u, s[1..]);
    }
  }

  /** White space only separates: the chunks of a text are those of its words. */
  lemma {:induction false} ChunksByWords(u: Unicode, gaps: seq<string>, words: seq<string>, s: string)
    requires u.Sane() && Divides(u, gaps, words, s)
    ensures Chunks(u, s) == ChunksOfWords(u, words)
    decreases |words|
  {
    assert White(u, gaps[0]);
    ChunksOfWhite(u, gaps[0]);
    if words != [] {
      var tail := Weave(gaps[1..], words[1..]);
      TailStartsWhite(u, gaps, words);
      ChunksSplit(u, words[0], tail);
      ChunksSplit(u, gaps[0], words[0] + tail);
      assert s == gaps[0] + (words[0] + tail);
      assert Divides(u, gaps[1..], words[1..], tail);
      ChunksByWords(u, gaps[1..], words[1..], tail);
    }
  }

  /** So collapsing a version does not change how it compares. */
  lemma CollapseKeepsVersion(u: Unicode, s: string)
    requires u.Sane() && u.white(' ')
    ensures Chunks(u, Collapse(u, s)) == Chunks(u, s)
  {
    CollapseKeepsWords(u, s);
    var gaps := WordsDivide(u, s);
    ChunksByWords(u, gaps, Words(u, s), s);
    var blanks := WordsDivide(u, Collapse(u, s));
    ChunksByWords(u, blanks, Words(u, s), Collapse(u, s));
  }
}
