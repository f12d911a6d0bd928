/** Positional numerals in any base, most significant digit first, and the change of base behind base58. */
module Numerals {

  predicate IsNumeral(b: nat, ds: seq<nat>) {
    b > 1 && forall i :: 0 <= i < |ds| ==> ds[i] < b
  }

  function Val(b: nat, ds: seq<nat>): nat {
    if ds == [] then 0 else Val(b, ds[..|ds| - 1]) * b + ds[|ds| - 1]
  }

  /** The shortest numeral; zero has no digits. */
  function Digits(b: nat, n: nat): seq<nat>
    requires b > 1
    decreases n
  {
    if n == 0 then [] else (Smaller(n, b); Digits(b, n / b) + [n % b])
  }

  lemma Smaller(n: nat, b: nat)
    requires n > 0 && b > 1
    ensures n / b < n
  {
    var q, r := n / b, n % b;
    assert n == b * q + r;
    Product(b, q);
  }

  lemma Product(b: nat, q: nat)
    requires b > 1
    ensures b * q >= 2 * q
  {
    assert (b - 2) * q >= 0;
  }

  lemma Split(b: nat, v: nat, d: nat)
    requires d < b
    ensures (v * b + d) / b == v && (v * b + d) % b == d
  {
    var n := v * b + d;
    var k := n / b - v;
    assert n % b == d - k * b;
    Gap(k, b);
  }

  lemma Gap(k: int, b: nat)
    requires b > 0
    ensures k >= 1 ==> k * b >= b
    ensures k <= -1 ==> k * b <= -(b as int)
  {
  }

  function Zeros(n: nat): (z: seq<nat>)
    ensures |z| == n && forall i :: 0 <= i < n ==> z[i] == 0
  {
    if n == 0 then [] else Zeros(n - 1) + [0]
  }

  function LeadingZeros(ds: seq<nat>): (n: nat)
    ensures n <= |ds|
  {
    if ds == [] || ds[0] != 0 then 0 else LeadingZeros(ds[1..]) + 1
  }

  predicate Trimmed(ds: seq<nat>) {
    ds == [] || ds[0] != 0
  }

  lemma Rejoin(n: nat, b: nat)
    requires b > 1
    ensures n == (n / b) * b + n % b && n % b < b
  {
  }

  lemma Pushed(b: nat, front: seq<nat>, d: nat)
    requires IsNumeral(b, front) && d < b
    ensures IsNumeral(b, front + [d]) && Val(b, front + [d]) == Val(b, front) * b + d
    ensures Trimmed(front) && (front == [] ==> d != 0) ==> Trimmed(front + [d])
  {
    assert (front + [d])[..|front|] == front;
  }

  lemma {:induction false} ValOfDigits(b: nat, n: nat)
    requires b > 1
    ensures Val(b, Digits(b, n)) == n && IsNumeral(b, Digits(b, n)) && Trimmed(Digits(b, n))
    decreases n
  {
    if n > 0 {
      Smaller(n, b);
      ValOfDigits(b, n / b);
      Rejoin(n, b);
      Pushed(b, Digits(b, n / b), n % b);
    }
  }

  lemma {:induction false} DigitsOfVal(b: nat, ds: seq<nat>)
    requires IsNumeral(b, ds) && Trimmed(ds)
    ensures Digits(b, Val(b, ds)) == ds
  {
    if ds != [] {
      var front, last := ds[..|ds| - 1], ds[|ds| - 1];
      DigitsOfVal(b, front);
      Split(b, Val(b, front), last);
      if front == [] { assert ds == [last]; } else { PositiveVal(b, front); }
      Positive(Val(b, front), b, last);
    }
  }

  lemma Positive(v: nat, b: nat, d: nat)
    requires b > 1 && (v > 0 || d > 0)
    ensures v * b + d > 0
  {
  }

  lemma {:induction false} PositiveVal(b: nat, ds: seq<nat>)
    requires b > 1 && ds != [] && ds[0] > 0
    ensures Val(b, ds) > 0
  {
    if |ds| > 1 {
      PositiveVal(b, ds[..|ds| - 1]);
      Positive(Val(b, ds[..|ds| - 1]), b, ds[|ds| - 1]);
    }
  }

  /** Leading zeros do not count. */
  lemma {:induction false} ValPadded(b: nat, n: nat, ds: seq<nat>)
    ensures Val(b, Zeros(n) + ds) == Val(b, ds)
  {
    var s := Zeros(n) + ds;
    if ds != [] {
      ValPadded(b, n, ds[..|ds| - 1]);
      assert s[..|s| - 1] == Zeros(n) + ds[..|ds| - 1];
    } else if n > 0 {
      ValPadded(b, n - 1, []);
      assert s == Zeros(n);
      assert Zeros(n)[..n - 1] == Zeros(n - 1) && Zeros(n - 1) + [] == Zeros(n - 1);
    }
  }

  lemma {:induction false} ZerosFront(n: nat)
    ensures Zeros(n + 1) == [0] + Zeros(n)
  {
    if n > 0 { ZerosFront(n - 1); }
  }

  /** Every numeral is its leading zeros followed by a trimmed one. */
  lemma {:induction false} Trim(ds: seq<nat>)
    ensures ds == Zeros(LeadingZeros(ds)) + ds[LeadingZeros(ds)..] && Trimmed(ds[LeadingZeros(ds)..])
  {
    if ds != [] && ds[0] == 0 {
      var rest := ds[1..];
      var n := LeadingZeros(rest);
      Trim(rest);
      ZerosFront(n);
      assert LeadingZeros(ds) == n + 1 && ds[n + 1..] == rest[n..];
      assert ds == [0] + rest == [0] + (Zeros(n) + rest[n..]) == ([0] + Zeros(n)) + rest[n..];
    }
  }

  lemma {:induction false} LeadingOfPadded(n: nat, ds: seq<nat>)
    requires Trimmed(ds)
    ensures LeadingZeros(Zeros(n) + ds) == n
  {
    if n == 0 {
      assert Zeros(0) + ds == ds;
    } else {
      ZerosFront(n - 1);
      LeadingOfPadded(n - 1, ds);
      assert (Zeros(n) + ds)[1..] == Zeros(n - 1) + ds;
    }
  }

  /** Same value and same number of leading zeros, in another base. */
  function Convert(b: nat, c: nat, ds: seq<nat>): seq<nat>
    requires c > 1
  {
    Zeros(LeadingZeros(ds)) + Digits(c, Val(b, ds))
  }

  lemma ConvertFacts(b: nat, c: nat, ds: seq<nat>)
    requires IsNumeral(b, ds) && c > 1
    ensures var es := Convert(b, c, ds);
            && IsNumeral(c, es) && Val(c, es) == Val(b, ds) && LeadingZeros(es) == LeadingZeros(ds)
  {
    ValOfDigits(c, Val(b, ds));
    ValPadded(c, LeadingZeros(ds), Digits(c, Val(b, ds)));
    LeadingOfPadded(LeadingZeros(ds), Digits(c, Val(b, ds)));
  }

  /** Changing base and back is the identity, for any two bases and every numeral. */
  lemma ConvertRoundTrip(b: nat, c: nat, ds: seq<nat>)
    requires IsNumeral(b, ds) && c > 1
    ensures Convert(c, b, Convert(b, c, ds)) == ds
  {
    ConvertFacts(b, c, ds);
    Trim(ds);
    var n, rest := LeadingZeros(ds), ds[LeadingZeros(ds)..];
    assert IsNumeral(b, rest);
    ValPadded(b, n, rest);
    DigitsOfVal(b, rest);
    assert Val(b, ds) == Val(b, rest);
    var es := Convert(b, c, ds);
    assert Convert(c, b, es) == Zeros(LeadingZeros(es)) + Digits(b, Val(c, es));
  }

  /** Two numerals of one length with one value are equal. */
  lemma {:induction false} ValInjective(b: nat, x: seq<nat>, y: seq<nat>)
    requires IsNumeral(b, x) && IsNumeral(b, y) && |x| == |y| && Val(b, x) == Val(b, y)
    ensures x == y
  {
    if x != [] {
      var fx, fy := x[..|x| - 1], y[..|y| - 1];
      Split(b, Val(b, fx), x[|x| - 1]);
      Split(b, Val(b, fy), y[|y| - 1]);
      ValInjective(b, fx, fy);
      assert x == fx + [x[|x| - 1]] && y == fy + [y[|y| - 1]];
    }
  }

  function Pow(b: nat, k: nat): nat {
    if k == 0 then 1 else Pow(b, k - 1) * b
  }

  lemma {:induction false} ValBound(b: nat, ds: seq<nat>)
    requires IsNumeral(b, ds)
    ensures Val(b, ds) < Pow(b, |ds|)
  {
    if ds != [] {
      var front, last := ds[..|ds| - 1], ds[|ds| - 1];
      ValBound(b, front);
      Step(Val(b, front), Pow(b, |front|), b, last);
    }
  }

  lemma Step(v: nat, p: nat, b: nat, d: nat)
    requires v < p && d < b
    ensures v * b + d < p * b
  {
    assert (v + 1) * b <= p * b;
  }

  /** A value below b^k has at most k digits. */
  lemma {:induction false} FewDigits(b: nat, n: nat, k: nat)
    requires b > 1 && n < Pow(b, k)
    ensures |Digits(b, n)| <= k
    decreases k
  {
    if n > 0 {
      Smaller(n, b);
      Quotient(n, b, Pow(b, k - 1));
      FewDigits(b, n / b, k - 1);
    }
  }

  lemma Monotone(p: nat, q: nat, b: nat)
    ensures p <= q ==> p * b <= q * b
  {
  }

  lemma Quotient(n: nat, b: nat, p: nat)
    requires b > 1 && n < p * b
    ensures n / b < p
  {
    var q := n / b;
    Monotone(p, q, b);
  }
}
