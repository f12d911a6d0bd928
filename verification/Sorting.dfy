/** Orders by key, as the queries and the stable sort of the trace store use them. */
module Sorting {
  import opened Basics

  /** Text in byte order (the order of UTF-8 bytes is the order of code points). */
  predicate TextLess(a: string, b: string) {
    b != "" && (a == "" || a[0] < b[0] || (a[0] == b[0] && TextLess(a[1..], b[1..])))
  }

  lemma {:induction false} TextTotal(a: string, b: string)
    ensures TextLess(a, b) || a == b || TextLess(b, a)
    ensures !(TextLess(a, b) && TextLess(b, a)) && (a == b ==> !TextLess(a, b))
  {
    if a != "" && b != "" && a[0] == b[0] {
      TextTotal(a[1..], b[1..]);
      assert a == [a[0]] + a[1..] && b == [b[0]] + b[1..];
    }
  }

  lemma {:induction false} TextTransitive(a: string, b: string, c: string)
    requires TextLess(a, b) && TextLess(b, c)
    ensures TextLess(a, c)
  {
    if a != "" && a[0] == b[0] && b[0] == c[0] { TextTransitive(a[1..], b[1..], c[1..]); }
  }

  /** Two numbers, then an id. */
  datatype Key = Key(major: int, minor: int, id: string)

  predicate Less(a: Key, b: Key) {
    || a.major < b.major
    || (a.major == b.major && (a.minor < b.minor || (a.minor == b.minor && TextLess(a.id, b.id))))
  }

  lemma LessTotal(a: Key, b: Key)
    ensures Less(a, b) || a == b || Less(b, a)
    ensures !(Less(a, b) && Less(b, a)) && (a == b ==> !Less(a, b))
  {
    TextTotal(a.id, b.id);
  }

  lemma LessTransitive(a: Key, b: Key, c: Key)
    requires !Less(b, a) && !Less(c, b)
    ensures !Less(c, a)
  {
    LessTotal(a, b);
    LessTotal(b, c);
    LessTotal(a, c);
    if Less(a, b) && Less(b, c) && a.major == b.major == c.major && a.minor == b.minor == c.minor {
      TextTransitive(a.id, b.id, c.id);
    }
  }

  /** No later element has a smaller key. */
  ghost predicate Sorted<T(!new)>(s: seq<T>, key: T -> Key) {
    forall i, j :: 0 <= i < j < |s| ==> !Less(key(s[j]), key(s[i]))
  }

  function Insert<T>(x: T, s: seq<T>, key: T -> Key): seq<T> {
    if s == [] || !Less(key(s[0]), key(x)) then [x] + s else [s[0]] + Insert(x, s[1..], key)
  }

  /** Stable: elements with equal keys keep their order. */
  function Sort<T>(s: seq<T>, key: T -> Key): seq<T> {
    if s == [] then [] else Insert(s[0], Sort(s[1..], key), key)
  }

  lemma {:induction false} InsertElements<T(!new)>(x: T, s: seq<T>, key: T -> Key)
    ensures multiset(Insert(x, s, key)) == multiset(s) + multiset{x}
    decreases s
  {
    if s != [] && Less(key(s[0]), key(x)) {
      InsertElements(x, s[1..], key);
      assert s == [s[0]] + s[1..];
    }
  }

  /** Putting an element no larger than the rest in front. */
  lemma SortedFront<T(!new)>(x: T, s: seq<T>, key: T -> Key)
    requires Sorted(s, key) && (s != [] ==> !Less(key(s[0]), key(x)))
    ensures Sorted([x] + s, key)
  {
    var r := [x] + s;
    forall i, j | 0 <= i < j < |r| ensures !Less(key(r[j]), key(r[i])) {
      if i == 0 && j > 1 { LessTransitive(key(x), key(s[0]), key(s[j - 1])); }
    }
  }

  lemma {:induction false} InsertFacts<T(!new)>(x: T, s: seq<T>, key: T -> Key)
    requires Sorted(s, key)
    ensures Sorted(Insert(x, s, key), key) && multiset(Insert(x, s, key)) == multiset(s) + multiset{x}
    decreases s
  {
    InsertElements(x, s, key);
    if s == [] || !Less(key(s[0]), key(x)) {
      SortedFront(x, s, key);
    } else {
      InsertFacts(x, s[1..], key);
      var rest := Insert(x, s[1..], key);
      assert rest[0] in multiset(rest);
      LessTotal(key(s[0]), key(x));
      if rest[0] != x {
        var k :| 0 <= k < |s[1..]| && s[1..][k] == rest[0];
        assert s[k + 1] == rest[0];
      }
      SortedFront(s[0], rest, key);
    }
  }

  lemma {:induction false} SortFacts<T(!new)>(s: seq<T>, key: T -> Key)
    ensures Sorted(Sort(s, key), key) && multiset(Sort(s, key)) == multiset(s)
  {
    if s != [] {
      SortFacts(s[1..], key);
      InsertFacts(s[0], Sort(s[1..], key), key);
      assert s == [s[0]] + s[1..];
    }
  }

  function HasKey<T>(key: T -> Key, k: Key): T -> bool {
    x => key(x) == k
  }

  /** Inserting puts an element in front of those with an equal key and moves none of them. */
  lemma {:induction false} InsertIsStable<T(!new)>(x: T, s: seq<T>, key: T -> Key, k: Key)
    ensures Filter(Insert(x, s, key), HasKey(key, k)) == Filter([x], HasKey(key, k)) + Filter(s, HasKey(key, k))
    decreases s
  {
    if s == [] || !Less(key(s[0]), key(x)) {
      FilterConcat([x], s, HasKey(key, k));
    } else {
      var rest := s[1..];
      InsertIsStable(x, rest, key, k);
      FilterConcat([s[0]], Insert(x, rest, key), HasKey(key, k));
      FilterConcat([s[0]], rest, HasKey(key, k));
      assert [s[0]] + rest == s;
      LessTotal(key(s[0]), key(x));
      assert Filter([x], HasKey(key, k)) == [] || Filter([s[0]], HasKey(key, k)) == [];
    }
  }

  /** Stability: the elements with one key come out in the order in which they went in. */
  lemma {:induction false} SortIsStable<T(!new)>(s: seq<T>, key: T -> Key, k: Key)
    ensures Filter(Sort(s, key), HasKey(key, k)) == Filter(s, HasKey(key, k))
  {
    if s != [] {
      SortIsStable(s[1..], key, k);
      InsertIsStable(s[0], Sort(s[1..], key), key, k);
      FilterConcat([s[0]], s[1..], HasKey(key, k));
      assert [s[0]] + s[1..] == s;
    }
  }

  /** Sorting what is sorted changes nothing. */
  lemma {:induction false} SortSorted<T(!new)>(s: seq<T>, key: T -> Key)
    requires Sorted(s, key)
    ensures Sort(s, key) == s
  {
    if s != [] {
      SortSorted(s[1..], key);
      assert s == [s[0]] + s[1..];
    }
  }
}
