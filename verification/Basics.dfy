/** Small shared vocabulary: optional values and order-preserving filters, reversal. */
module Basics {

  datatype Option<+T> = None | Some(value: T)

  /** The elements of `s` that satisfy `keep`, in their original order. */
  function Filter<T(!new)>(s: seq<T>, keep: T -> bool): (r: seq<T>)
    ensures |r| <= |s|
    ensures forall x :: x in r <==> x in s && keep(x)
  {
    if s == [] then [] else (if keep(s[0]) then [s[0]] else []) + Filter(s[1..], keep)
  }

  /** Filtering distributes over concatenation: the order of `s` is kept and nothing moves. */
  lemma {:induction false} FilterConcat<T(!new)>(a: seq<T>, b: seq<T>, keep: T -> bool)
    ensures Filter(a + b, keep) == Filter(a, keep) + Filter(b, keep)
  {
    if a == [] {
      assert a + b == b;
    } else {
      assert (a + b)[1..] == a[1..] + b;
      FilterConcat(a[1..], b, keep);
    }
  }

  lemma {:induction false} FilterAll<T(!new)>(s: seq<T>, keep: T -> bool)
    requires forall x :: x in s ==> keep(x)
    ensures Filter(s, keep) == s
  {
    if s != [] {
      FilterAll(s[1..], keep);
    }
  }

  /** Dropping the one element that does not satisfy `keep`. */
  lemma {:induction false} FilterAround<T(!new)>(a: seq<T>, x: T, b: seq<T>, keep: T -> bool)
    requires (forall y :: y in a ==> keep(y)) && (forall y :: y in b ==> keep(y)) && !keep(x)
    ensures Filter(a + [x] + b, keep) == a + b
  {
    var s := a + [x] + b;
    if a == [] {
      assert s[1..] == b;
      FilterAll(b, keep);
    } else {
      assert forall y :: y in a[1..] ==> y in a;
      FilterAround(a[1..], x, b, keep);
      assert s[0] == a[0] && a[0] in a && s[1..] == a[1..] + [x] + b;
      assert Filter(s, keep) == [a[0]] + (a[1..] + b);
      assert [a[0]] + (a[1..] + b) == a + b;
    }
  }

  function Backwards<T>(s: seq<T>): seq<T> {
    seq(|s|, i requires 0 <= i < |s| => s[|s| - 1 - i])
  }

  lemma Regroup<T>(a: seq<T>, b: seq<T>, c: seq<T>, d: seq<T>)
    ensures a + b + c == a + (b + c) && a + b + c + d == a + (b + c + d)
  {
  }
}
