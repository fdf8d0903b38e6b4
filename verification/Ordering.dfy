/** Three-way comparison, and text in the order of its code points. */
module Ordering {
  datatype Order = Less | Equal | Greater {
    function Flip(): Order {
      match this
      case Less => Greater
      case Equal => Equal
      case Greater => Less
    }

    /** The first decisive answer wins. */
    function Then(next: Order): Order {
      if Equal? then next else this
    }
  }

  function CompareInt(a: int, b: int): Order {
    if a < b then Less else if a == b then Equal else Greater
  }

  function CompareText(a: string, b: string): Order {
    if a == [] then (if b == [] then Equal else Less)
    else if b == [] then Greater
    else CompareInt(a[0] as int, b[0] as int).Then(CompareText(a[1..], b[1..]))
  }

  /** What chaining two answers along a total preorder may give. */
  predicate Chains(ab: Order, bc: Order, ac: Order) {
    && (!ab.Greater? && !bc.Greater? ==> !ac.Greater?)
    && (!ab.Greater? && !bc.Greater? && (ab.Less? || bc.Less?) ==> ac.Less?)
    && (ab.Equal? && bc.Equal? ==> ac.Equal?)
  }

  lemma {:induction false} TextFlip(a: string, b: string)
    ensures CompareText(b, a) == CompareText(a, b).Flip()
    ensures CompareText(a, b).Equal? <==> a == b
  {
    if a != [] && b != [] {
      TextFlip(a[1..], b[1..]);
      assert a == [a[0]] + a[1..] && b == [b[0]] + b[1..];
    }
  }

  lemma {:induction false} TextChains(a: string, b: string, c: string)
    ensures Chains(CompareText(a, b), CompareText(b, c), CompareText(a, c))
  {
    if a != [] && b != [] && c != [] {
      TextChains(a[1..], b[1..], c[1..]);
    }
  }

  /** The first difference decides, by code points, and a text comes before its extensions. */
  lemma {:induction false} TextLess(a: string, b: string, i: nat)
    requires i <= |a| && i < |b| && a[..i] == b[..i]
    requires i == |a| || a[i] < b[i]
    ensures CompareText(a, b).Less? && CompareText(b, a).Greater?
  {
    if i > 0 {
      assert a[0] == a[..i][0] == b[0];
      assert a[1..][..i - 1] == a[..i][1..] && b[1..][..i - 1] == b[..i][1..];
      TextLess(a[1..], b[1..], i - 1);
    }
  }
}
