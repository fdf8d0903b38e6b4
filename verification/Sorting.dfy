/** A stable sort by a three-way comparison, as the standard library's. */
module Sorting {
  import opened Options
  import opened Ordering

  ghost predicate Preorder<T(!new)>(cmp: (T, T) -> Order) {
    && (forall a: T, b: T :: cmp(b, a) == cmp(a, b).Flip())
    && (forall a: T, b: T, c: T :: Chains(cmp(a, b), cmp(b, c), cmp(a, c)))
  }

  ghost predicate Sorted<T>(cmp: (T, T) -> Order, s: seq<T>) {
    forall i, j :: 0 <= i < j < |s| ==> !cmp(s[i], s[j]).Greater?
  }

  function Insert<T>(cmp: (T, T) -> Order, x: T, s: seq<T>): seq<T> {
    if s == [] || !cmp(x, s[0]).Greater? then [x] + s else [s[0]] + Insert(cmp, x, s[1..])
  }

  function Sort<T>(cmp: (T, T) -> Order, s: seq<T>): seq<T> {
    if s == [] then [] else Insert(cmp, s[0], Sort(cmp, s[1..]))
  }

  lemma {:induction false} InsertMembers<T>(cmp: (T, T) -> Order, x: T, s: seq<T>)
    ensures multiset(Insert(cmp, x, s)) == multiset{x} + multiset(s)
  {
    if s == [] || !cmp(x, s[0]).Greater? {
    } else {
      InsertMembers(cmp, x, s[1..]);
      assert s == [s[0]] + s[1..];
    }
  }

  lemma {:induction false} SortMembers<T>(cmp: (T, T) -> Order, s: seq<T>)
    ensures multiset(Sort(cmp, s)) == multiset(s)
    ensures |Sort(cmp, s)| == |s|
    ensures forall x :: x in Sort(cmp, s) <==> x in s
  {
    if s != [] {
      SortMembers(cmp, s[1..]);
      InsertMembers(cmp, s[0], Sort(cmp, s[1..]));
      assert s == [s[0]] + s[1..];
    }
    SameMembers(Sort(cmp, s), s);
  }

  lemma SameMembers<T>(a: seq<T>, b: seq<T>)
    requires multiset(a) == multiset(b)
    ensures |a| == |b| && forall x :: x in a <==> x in b
  {
    assert |multiset(a)| == |a| && |multiset(b)| == |b|;
    assert forall x :: x in a <==> x in multiset(a);
    assert forall x :: x in b <==> x in multiset(b);
  }

  lemma {:induction false} InsertSorted<T(!new)>(cmp: (T, T) -> Order, x: T, s: seq<T>)
    requires Preorder(cmp) && Sorted(cmp, s)
    ensures Sorted(cmp, Insert(cmp, x, s))
  {
    if s == [] {
    } else if !cmp(x, s[0]).Greater? {
      forall j | 0 <= j < |s| ensures !cmp(x, s[j]).Greater? {
        assert Chains(cmp(x, s[0]), cmp(s[0], s[j]), cmp(x, s[j]));
        assert cmp(s[0], s[0]) == cmp(s[0], s[0]).Flip();
      }
    } else {
      InsertSorted(cmp, x, s[1..]);
      var rest := Insert(cmp, x, s[1..]);
      InsertMembers(cmp, x, s[1..]);
      forall j | 0 <= j < |rest| ensures !cmp(s[0], rest[j]).Greater? {
        assert rest[j] in multiset(rest);
        if rest[j] != x {
          assert rest[j] in multiset(s[1..]);
          var k :| 0 <= k < |s[1..]| && s[1..][k] == rest[j];
          assert s[k + 1] == rest[j];
        }
      }
    }
  }

  lemma {:induction false} SortSorted<T(!new)>(cmp: (T, T) -> Order, s: seq<T>)
    requires Preorder(cmp)
    ensures Sorted(cmp, Sort(cmp, s))
  {
    if s != [] {
      SortSorted(cmp, s[1..]);
      InsertSorted(cmp, s[0], Sort(cmp, s[1..]));
    }
  }

  /** Sorting what is sorted changes nothing. */
  lemma {:induction false} SortFixed<T>(cmp: (T, T) -> Order, s: seq<T>)
    requires Sorted(cmp, s)
    ensures Sort(cmp, s) == s
  {
    if s != [] {
      SortFixed(cmp, s[1..]);
      assert |s| > 1 ==> !cmp(s[0], s[1]).Greater?;
    }
  }

  /** Dropping consecutive duplicates. */
  function Dedup<T(==)>(s: seq<T>): seq<T> {
    if s == [] then []
    else
      var init := Dedup(s[..|s| - 1]);
      if init != [] && init[|init| - 1] == s[|s| - 1] then init else init + [s[|s| - 1]]
  }

  lemma {:induction false} DedupSorted<T>(cmp: (T, T) -> Order, s: seq<T>)
    requires Sorted(cmp, s)
    ensures Sorted(cmp, Dedup(s))
    ensures forall x :: x in Dedup(s) ==> x in s
    ensures forall i :: 0 <= i < |Dedup(s)| - 1 ==> Dedup(s)[i] != Dedup(s)[i + 1]
  {
    if s != [] {
      var n := |s| - 1;
      DedupSorted(cmp, s[..n]);
      var init := Dedup(s[..n]);
      forall i | 0 <= i < |init| ensures !cmp(init[i], s[n]).Greater? {
        assert init[i] in s[..n];
      }
    }
  }

  lemma {:induction false} DedupMembers<T>(s: seq<T>)
    ensures forall x :: x in Dedup(s) <==> x in s
  {
    if s != [] {
      DedupMembers(s[..|s| - 1]);
      assert s == s[..|s| - 1] + [s[|s| - 1]];
    }
  }

  lemma {:induction false} DedupFixed<T>(s: seq<T>)
    requires forall i :: 0 <= i < |s| - 1 ==> s[i] != s[i + 1]
    ensures Dedup(s) == s
  {
    if s != [] {
      DedupFixed(s[..|s| - 1]);
    }
  }

  function Filter<T>(p: T -> bool, s: seq<T>): seq<T> {
    if s == [] then []
    else (if p(s[0]) then [s[0]] else []) + Filter(p, s[1..])
  }

  lemma {:induction false} FilterMembers<T>(p: T -> bool, s: seq<T>)
    ensures forall x :: x in Filter(p, s) <==> x in s && p(x)
  {
    if s != [] {
      FilterMembers(p, s[1..]);
    }
  }

  lemma {:induction false} FilterFixed<T>(p: T -> bool, s: seq<T>)
    requires forall i :: 0 <= i < |s| ==> p(s[i])
    ensures Filter(p, s) == s
  {
    if s != [] {
      FilterFixed(p, s[1..]);
    }
  }

  function Tie<T>(cmp: (T, T) -> Order, x: T): T -> bool {
    y => cmp(y, x).Equal?
  }

  lemma {:induction false} InsertStable<T(!new)>(cmp: (T, T) -> Order, x: T, y: T, s: seq<T>)
    requires Preorder(cmp)
    ensures Filter(Tie(cmp, x), Insert(cmp, y, s)) == Filter(Tie(cmp, x), [y] + s)
  {
    if s != [] && cmp(y, s[0]).Greater? {
      InsertStable(cmp, x, y, s[1..]);
      assert Chains(cmp(y, x), cmp(x, s[0]), cmp(y, s[0])) && cmp(x, s[0]) == cmp(s[0], x).Flip();
      assert !(Tie(cmp, x)(y) && Tie(cmp, x)(s[0]));
      assert ([y] + s)[1..] == s && ([y] + s[1..])[1..] == s[1..];
    }
  }

  /** The sort is stable: rows that tie with any given one keep their order. */
  lemma {:induction false} SortStable<T(!new)>(cmp: (T, T) -> Order, x: T, s: seq<T>)
    requires Preorder(cmp)
    ensures Filter(Tie(cmp, x), Sort(cmp, s)) == Filter(Tie(cmp, x), s)
  {
    if s != [] {
      SortStable(cmp, x, s[1..]);
      InsertStable(cmp, x, s[0], Sort(cmp, s[1..]));
      assert s == [s[0]] + s[1..];
      assert ([s[0]] + Sort(cmp, s[1..]))[1..] == Sort(cmp, s[1..]);
    }
  }

  function FilterMap<T, U>(f: T -> Option<U>, s: seq<T>): seq<U> {
    if s == [] then []
    else
      FilterMap(f, s[..|s| - 1]) + (match f(s[|s| - 1]) case Some(y) => [y] case None => [])
  }

  lemma {:induction false} FilterMapMembers<T, U>(f: T -> Option<U>, s: seq<T>)
    ensures forall y :: y in FilterMap(f, s) <==> exists x :: x in s && f(x) == Some(y)
  {
    if s != [] {
      FilterMapMembers(f, s[..|s| - 1]);
      assert s == s[..|s| - 1] + [s[|s| - 1]];
    }
  }

  lemma FilterMapOrigin<T, U>(f: T -> Option<U>, s: seq<T>, y: U) returns (x: T)
    requires y in FilterMap(f, s)
    ensures x in s && f(x) == Some(y)
  {
    FilterMapMembers(f, s);
    x :| x in s && f(x) == Some(y);
  }
}
