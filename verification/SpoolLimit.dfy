/** Which pending entries the spool gives up when it outgrows its limits. */
module SpoolLimit {
  const MAX_SPOOL_BYTES := 128 * 1024 * 1024
  const U64_MAX := 0xFFFF_FFFF_FFFF_FFFF
  /** The largest file size that file systems report. */
  const I64_MAX := 0x7FFF_FFFF_FFFF_FFFF

  function Total(sizes: seq<nat>): nat {
    if sizes == [] then 0 else sizes[0] + Total(sizes[1..])
  }

  function AtLeastOne(limit: nat): nat { if limit == 0 then 1 else limit }

  predicate Meets(limit: nat, sizes: seq<nat>) {
    |sizes| <= AtLeastOne(limit) && Total(sizes) <= MAX_SPOOL_BYTES
  }

  /** The fewest oldest entries to drop, the newest always staying. */
  function Shortest(limit: nat, sizes: seq<nat>): (k: nat)
    ensures k <= |sizes| && (sizes != [] ==> k < |sizes|)
  {
    if |sizes| <= 1 || Meets(limit, sizes) then 0 else 1 + Shortest(limit, sizes[1..])
  }

  /** What is left meets both limits or is the newest entry alone, and no shorter prefix would do. */
  lemma {:induction false} ShortestIsLeast(limit: nat, sizes: seq<nat>)
    ensures var k := Shortest(limit, sizes);
            && (|sizes| - k <= 1 || Meets(limit, sizes[k..]))
            && (|sizes| - k > 1 ==>
                  |sizes| - k <= (if limit == 0 then 1 else limit) && Total(sizes[k..]) <= 128 * 1024 * 1024)
            && (forall j :: 0 <= j < k ==> |sizes| - j > 1 && !Meets(limit, sizes[j..]))
  {
    if |sizes| <= 1 || Meets(limit, sizes) {
      assert sizes[0..] == sizes;
    } else {
      ShortestIsLeast(limit, sizes[1..]);
      var k := Shortest(limit, sizes[1..]);
      assert sizes[1..][k..] == sizes[k + 1..];
      forall j | 0 <= j < k + 1 ensures |sizes| - j > 1 && !Meets(limit, sizes[j..]) {
        if j == 0 {
          assert sizes[0..] == sizes;
        } else {
          assert sizes[1..][j - 1..] == sizes[j..];
        }
      }
    }
  }

  // ---------------------------------------------------------------- 64-bit accounting

  function SatAdd(a: nat, b: nat): nat { if a + b > U64_MAX then U64_MAX else a + b }
  function SatSub(a: nat, b: nat): nat { if b > a then 0 else a - b }

  method SumSizes(sizes: seq<nat>) returns (total: nat)
    ensures total == if Total(sizes) > U64_MAX then U64_MAX else Total(sizes)
  {
    total := 0;
    for i := 0 to |sizes|
      invariant total == if Total(sizes[..i]) > U64_MAX then U64_MAX else Total(sizes[..i])
    {
      TotalSnoc(sizes[..i], sizes[i]);
      assert sizes[..i + 1] == sizes[..i] + [sizes[i]];
      total := SatAdd(total, sizes[i]);
    }
    assert sizes[..|sizes|] == sizes;
  }

  lemma {:induction false} TotalSnoc(sizes: seq<nat>, n: nat)
    ensures Total(sizes + [n]) == Total(sizes) + n
  {
    if sizes != [] {
      TotalSnoc(sizes[1..], n);
      assert (sizes + [n])[1..] == sizes[1..] + [n];
    }
  }

  /** How many entries the code drops, starting from its own running totals. */
  function Dropped(limit: nat, total: nat, sizes: seq<nat>): nat {
    if |sizes| <= 1 || (|sizes| <= AtLeastOne(limit) && total <= MAX_SPOOL_BYTES) then 0
    else 1 + Dropped(limit, SatSub(total, sizes[0]), sizes[1..])
  }

  lemma DropNext(limit: nat, total: nat, sizes: seq<nat>, k: nat)
    requires k < |sizes| && |sizes| - k > 1 && !(|sizes| - k <= AtLeastOne(limit) && total <= MAX_SPOOL_BYTES)
    ensures Dropped(limit, total, sizes[k..]) == 1 + Dropped(limit, SatSub(total, sizes[k]), sizes[k + 1..])
  {
    assert sizes[k..][1..] == sizes[k + 1..] && sizes[k..][0] == sizes[k];
  }

  /** An exact running total drops exactly the shortest prefix; a saturated one never more. */
  lemma {:induction false} DroppedIsShortest(limit: nat, total: nat, sizes: seq<nat>)
    requires total <= Total(sizes)
    ensures Dropped(limit, total, sizes) <= Shortest(limit, sizes)
    ensures total == Total(sizes) ==> Dropped(limit, total, sizes) == Shortest(limit, sizes)
  {
    if |sizes| > 1 && !(|sizes| <= AtLeastOne(limit) && total <= MAX_SPOOL_BYTES) {
      DroppedIsShortest(limit, SatSub(total, sizes[0]), sizes[1..]);
    }
  }

  lemma {:induction false} TotalSplit(sizes: seq<nat>, k: nat)
    requires k <= |sizes|
    ensures Total(sizes[..k]) + Total(sizes[k..]) == Total(sizes)
  {
    if k > 0 {
      TotalSplit(sizes[1..], k - 1);
      assert sizes[..k][1..] == sizes[1..][..k - 1] && sizes[k..] == sizes[1..][k - 1..];
    } else {
      assert sizes[0..] == sizes;
    }
  }

  /** The running total permits stopping after the first k entries. */
  predicate Stops(limit: nat, total: nat, sizes: seq<nat>, k: nat)
    requires k <= |sizes|
  {
    |sizes| - k <= AtLeastOne(limit) && SatSub(total, Total(sizes[..k])) <= MAX_SPOOL_BYTES
  }

  lemma StopsNext(limit: nat, total: nat, sizes: seq<nat>, k: nat)
    requires 0 < k <= |sizes|
    ensures Stops(limit, total, sizes, k) <==> Stops(limit, SatSub(total, sizes[0]), sizes[1..], k - 1)
  {
    assert sizes[..k][1..] == sizes[1..][..k - 1];
  }

  /** The code stops at the first entry at which its running total permits it. */
  lemma {:induction false} DroppedIsLeast(limit: nat, total: nat, sizes: seq<nat>)
    requires sizes != []
    ensures var k := Dropped(limit, total, sizes);
            && k < |sizes| && (k < |sizes| - 1 ==> Stops(limit, total, sizes, k))
            && (forall j :: 0 <= j < k ==> !Stops(limit, total, sizes, j))
  {
    assert Total(sizes[..0]) == 0;
    if |sizes| > 1 && !Stops(limit, total, sizes, 0) {
      DroppedIsLeast(limit, SatSub(total, sizes[0]), sizes[1..]);
      var k := Dropped(limit, total, sizes);
      StopsNext(limit, total, sizes, k);
      forall j | 0 < j < k ensures !Stops(limit, total, sizes, j) {
        StopsNext(limit, total, sizes, j);
      }
    }
  }

  /** Dropping the first k entries brings the capped total within the byte limit although what is left is
      beyond it. */
  predicate Misleads(limit: nat, sizes: seq<nat>, k: nat) {
    && k + 1 < |sizes| && |sizes| - k <= AtLeastOne(limit)
    && Total(sizes[..k]) >= U64_MAX - MAX_SPOOL_BYTES && Total(sizes[k..]) > MAX_SPOOL_BYTES
  }

  /** The saturating total drops something other than the shortest prefix if and only if some prefix of almost
      2^64 bytes leaves more than the byte limit within the entry limit. */
  lemma SaturationKeepsTooMuch(limit: nat, sizes: seq<nat>)
    ensures Dropped(limit, if Total(sizes) > U64_MAX then U64_MAX else Total(sizes), sizes) != Shortest(limit, sizes)
            <==> exists k :: Misleads(limit, sizes, k)
  {
    var total := if Total(sizes) > U64_MAX then U64_MAX else Total(sizes);
    DroppedIsShortest(limit, total, sizes);
    if sizes != [] {
      DroppedIsLeast(limit, total, sizes);
      ShortestIsLeast(limit, sizes);
      var d, e := Dropped(limit, total, sizes), Shortest(limit, sizes);
      if d < e {
        TotalSplit(sizes, d);
        assert Misleads(limit, sizes, d);
      }
      forall k | Misleads(limit, sizes, k) ensures d < e {
        MisleadsEarly(limit, sizes, k);
      }
    }
  }

  lemma MisleadsEarly(limit: nat, sizes: seq<nat>, k: nat)
    requires Misleads(limit, sizes, k)
    ensures Dropped(limit, if Total(sizes) > U64_MAX then U64_MAX else Total(sizes), sizes) <= k
    ensures Shortest(limit, sizes) > k
  {
    var total := if Total(sizes) > U64_MAX then U64_MAX else Total(sizes);
    TotalSplit(sizes, k);
    assert Stops(limit, total, sizes, k);
    DroppedIsLeast(limit, total, sizes);
    ShortestIsLeast(limit, sizes);
    TotalFalls(sizes, Shortest(limit, sizes), k);
  }

  lemma TotalFalls(sizes: seq<nat>, e: nat, k: nat)
    requires e <= |sizes| && k <= |sizes|
    ensures e <= k ==> Total(sizes[e..]) >= Total(sizes[k..])
  {
    if e <= k {
      TotalSplit(sizes[e..], k - e);
      assert sizes[e..][k - e..] == sizes[k..];
    }
  }

  /** Three files of the largest size a file can report and a small one. */
  lemma OverflowKeepsTooMuch()
    ensures var sizes := [I64_MAX, I64_MAX, I64_MAX, 1];
            Total(sizes) > U64_MAX && Dropped(4, U64_MAX, sizes) != Shortest(4, sizes)
  {
    var sizes := [I64_MAX, I64_MAX, I64_MAX, 1];
    TotalOfTwo(I64_MAX, I64_MAX);
    TotalOfTwo(I64_MAX, 1);
    assert sizes[..2] == [I64_MAX, I64_MAX] && sizes[2..] == [I64_MAX, 1];
    TotalSplit(sizes, 2);
    assert Misleads(4, sizes, 2);
    SaturationKeepsTooMuch(4, sizes);
  }

  lemma TotalOfTwo(a: nat, b: nat)
    ensures Total([a, b]) == a + b
  {
    assert Total([b]) == b + Total([]);
    assert [a, b][1..] == [b];
  }
}
