/** Start order of the daemon's modules: Kahn's algorithm, with its three errors. */
module Topo {
  datatype Module = Module(name: string, deps: seq<string>)

  datatype Outcome = Sorted(order: seq<Module>) | Duplicate(name: string) | UnknownDep(name: string, dep: string) | Circular

  function Names(ms: seq<Module>): set<string> {
    if ms == [] then {} else Names(ms[..|ms| - 1]) + {ms[|ms| - 1].name}
  }

  lemma {:induction false} Position(ms: seq<Module>, x: string) returns (j: nat)
    requires x in Names(ms)
    ensures j < |ms| && ms[j].name == x
  {
    if x == ms[|ms| - 1].name { j := |ms| - 1; } else { j := Position(ms[..|ms| - 1], x); }
  }

  lemma {:induction false} HasName(ms: seq<Module>, i: nat)
    requires i < |ms|
    ensures ms[i].name in Names(ms)
  {
    if i < |ms| - 1 { HasName(ms[..|ms| - 1], i); }
  }

  lemma NamesNext(ms: seq<Module>, i: nat)
    requires i < |ms|
    ensures Names(ms[..i + 1]) == Names(ms[..i]) + {ms[i].name}
  {
    assert ms[..i + 1][..i] == ms[..i];
  }

  ghost predicate DistinctNames(ms: seq<Module>) {
    forall i, j :: 0 <= i < j < |ms| ==> ms[i].name != ms[j].name
  }

  ghost predicate KnownDeps(ms: seq<Module>) {
    forall i :: 0 <= i < |ms| ==> DependsOnlyOn(ms[i], Names(ms))
  }

  /** Every dependency, however often it is repeated, comes before the module that names it. */
  ghost predicate DepsFirst(order: seq<Module>) {
    forall i :: 0 <= i < |order| ==> DependsOnlyOn(order[i], Names(order[..i]))
  }

  predicate DependsInto(m: Module, s: set<string>) {
    exists d :: d in m.deps && d in s
  }

  predicate DependsOnlyOn(m: Module, s: set<string>) {
    forall d :: d in m.deps ==> d in s
  }

  /** A non-empty set of modules each of which depends on a member of the set. */
  ghost predicate Knot(ms: seq<Module>, s: set<string>) {
    s != {} && s <= Names(ms) && forall i :: 0 <= i < |ms| && ms[i].name in s ==> DependsInto(ms[i], s)
  }

  // ---------------------------------------------------------------------------------------------
  // Counting dependencies that are still open
  // ---------------------------------------------------------------------------------------------

  /** How many entries of `deps` are not yet done, repetitions counted. */
  function Open(deps: seq<string>, done: set<string>): nat {
    if deps == [] then 0 else Open(deps[1..], done) + if deps[0] in done then 0 else 1
  }

  function Occurs(s: seq<string>, x: string): nat {
    if s == [] then 0 else Occurs(s[1..], x) + if s[0] == x then 1 else 0
  }

  lemma {:induction false} OccursAppend(s: seq<string>, e: string, x: string)
    ensures Occurs(s + [e], x) == Occurs(s, x) + if e == x then 1 else 0
  {
    if s == [] {
      assert s + [e] == [e];
    } else {
      assert (s + [e])[1..] == s[1..] + [e];
      OccursAppend(s[1..], e, x);
    }
  }

  lemma {:induction false} OpenNone(deps: seq<string>)
    ensures Open(deps, {}) == |deps|
  {
    if deps != [] { OpenNone(deps[1..]); }
  }

  lemma {:induction false} OpenZero(deps: seq<string>, done: set<string>)
    ensures Open(deps, done) == 0 <==> forall d :: d in deps ==> d in done
  {
    if deps != [] {
      OpenZero(deps[1..], done);
      assert deps == [deps[0]] + deps[1..];
    }
  }

  lemma {:induction false} OpenAfter(deps: seq<string>, done: set<string>, x: string)
    requires x !in done
    ensures Open(deps, done) == Open(deps, done + {x}) + Occurs(deps, x)
  {
    if deps != [] { OpenAfter(deps[1..], done, x); }
  }

  // ---------------------------------------------------------------------------------------------
  // The tables
  // ---------------------------------------------------------------------------------------------

  /** Every module of the list is the one the map holds under its name. */
  ghost predicate Drawn(ms: seq<Module>, byName: map<string, Module>) {
    forall i :: 0 <= i < |ms| ==> ms[i].name in byName && byName[ms[i].name] == ms[i]
  }

  ghost predicate Index(ms: seq<Module>, byName: map<string, Module>) {
    byName.Keys == Names(ms) && Drawn(ms, byName)
  }

  function Dependents(dependents: map<string, seq<string>>, d: string): seq<string> {
    if d in dependents then dependents[d] else []
  }

  /** The edges counted so far; `taken` says which dependencies of each module have been looked at. */
  ghost predicate Edges(byName: map<string, Module>, inDegree: map<string, int>, dependents: map<string, seq<string>>,
                        taken: map<string, seq<string>>) {
    && inDegree.Keys == byName.Keys && taken.Keys == byName.Keys
    && (forall x :: x in byName ==> inDegree[x] == |taken[x]|)
    && (forall d, x :: x in Dependents(dependents, d) ==> x in byName)
    && (forall d, x :: x in byName ==> Occurs(Dependents(dependents, d), x) == Occurs(taken[x], d))
  }

  method IndexModules(ms: seq<Module>) returns (repeated: bool, name: string, byName: map<string, Module>)
    ensures repeated <==> !DistinctNames(ms)
    ensures repeated ==> exists i, j :: 0 <= i < j < |ms| && ms[i].name == name == ms[j].name
    ensures !repeated ==> Index(ms, byName)
  {
    byName, name := map[], "";
    for i := 0 to |ms|
      invariant DistinctNames(ms[..i]) && byName.Keys == Names(ms[..i]) && Drawn(ms[..i], byName)
    {
      NamesNext(ms, i);
      if ms[i].name in byName {
        var k := Position(ms[..i], ms[i].name);
        assert ms[k].name == ms[i].name;
        return true, ms[i].name, byName;
      }
      forall k | 0 <= k < i ensures ms[..i][k].name != ms[i].name { HasName(ms[..i], k); }
      byName := byName[ms[i].name := ms[i]];
    }
    assert ms[..|ms|] == ms;
    repeated := false;
  }

  lemma EdgeAdded(byName: map<string, Module>, inDegree: map<string, int>, dependents: map<string, seq<string>>,
                  taken: map<string, seq<string>>, x: string, d: string)
    requires Edges(byName, inDegree, dependents, taken) && x in byName
    ensures Edges(byName, inDegree[x := inDegree[x] + 1], dependents[d := Dependents(dependents, d) + [x]],
                  taken[x := taken[x] + [d]])
  {
    var dependents' := dependents[d := Dependents(dependents, d) + [x]];
    var taken' := taken[x := taken[x] + [d]];
    assert Dependents(dependents', d) == Dependents(dependents, d) + [x];
    assert forall e :: e != d ==> Dependents(dependents', e) == Dependents(dependents, e);
    forall e, y | y in byName ensures Occurs(Dependents(dependents', e), y) == Occurs(taken'[y], e) {
      assert Occurs(Dependents(dependents, e), y) == Occurs(taken[y], e);
      assert taken'[y] == if y == x then taken[x] + [d] else taken[y];
      OccursAppend(Dependents(dependents, d), x, y);
      OccursAppend(taken[x], d, e);
    }
  }

  /** The dependencies of the first `i` modules, and the first `j` of the next one. */
  ghost predicate Progress(ms: seq<Module>, taken: map<string, seq<string>>, i: nat, j: nat)
    requires i <= |ms| && (i < |ms| ==> j <= |ms[i].deps|)
  {
    && (forall k :: 0 <= k < |ms| ==> ms[k].name in taken)
    && (forall k :: 0 <= k < i ==> taken[ms[k].name] == ms[k].deps)
    && (i < |ms| ==> taken[ms[i].name] == ms[i].deps[..j])
    && (forall k :: i < k < |ms| ==> taken[ms[k].name] == [])
  }

  lemma ProgressNext(ms: seq<Module>, taken: map<string, seq<string>>, i: nat, j: nat)
    requires DistinctNames(ms) && i < |ms| && j < |ms[i].deps| && Progress(ms, taken, i, j)
    ensures Progress(ms, taken[ms[i].name := taken[ms[i].name] + [ms[i].deps[j]]], i, j + 1)
  {
    assert ms[i].deps[..j + 1] == ms[i].deps[..j] + [ms[i].deps[j]];
  }

  lemma ProgressRow(ms: seq<Module>, taken: map<string, seq<string>>, i: nat)
    requires i < |ms| && Progress(ms, taken, i, |ms[i].deps|)
    ensures Progress(ms, taken, i + 1, 0)
  {
    assert ms[i].deps[..|ms[i].deps|] == ms[i].deps;
  }

  /** The complete tables: every dependency of every module has been counted. */
  ghost predicate Counted(byName: map<string, Module>, inDegree: map<string, int>, dependents: map<string, seq<string>>) {
    Edges(byName, inDegree, dependents, map x | x in byName :: byName[x].deps)
  }

  /** Counts the dependencies of one module, up to the first that names no module. */
  method CountModule(ms: seq<Module>, i: nat, byName: map<string, Module>, inDegree0: map<string, int>,
                     dependents0: map<string, seq<string>>, ghost taken0: map<string, seq<string>>)
    returns (unknown: bool, dep: string, inDegree: map<string, int>, dependents: map<string, seq<string>>,
             ghost taken: map<string, seq<string>>)
    requires DistinctNames(ms) && i < |ms| && Index(ms, byName)
    requires Edges(byName, inDegree0, dependents0, taken0) && Progress(ms, taken0, i, 0)
    ensures unknown <==> !DependsOnlyOn(ms[i], Names(ms))
    ensures unknown ==> dep in ms[i].deps && dep !in Names(ms)
    ensures !unknown ==> Edges(byName, inDegree, dependents, taken) && Progress(ms, taken, i + 1, 0)
  {
    inDegree, dependents, taken, dep := inDegree0, dependents0, taken0, "";
    var m := ms[i];
    for j := 0 to |m.deps|
      invariant Edges(byName, inDegree, dependents, taken) && Progress(ms, taken, i, j)
      invariant forall d :: d in m.deps[..j] ==> d in Names(ms)
    {
      var d := m.deps[j];
      if d !in byName { return true, d, inDegree, dependents, taken; }
      EdgeAdded(byName, inDegree, dependents, taken, m.name, d);
      ProgressNext(ms, taken, i, j);
      inDegree := inDegree[m.name := inDegree[m.name] + 1];
      dependents := dependents[d := (if d in dependents then dependents[d] else []) + [m.name]];
      taken := taken[m.name := taken[m.name] + [d]];
    }
    ProgressRow(ms, taken, i);
    assert m.deps[..|m.deps|] == m.deps;
    unknown := false;
  }

  method CountEdges(ms: seq<Module>, byName: map<string, Module>)
    returns (unknown: bool, name: string, dep: string, inDegree: map<string, int>, dependents: map<string, seq<string>>)
    requires DistinctNames(ms) && Index(ms, byName)
    ensures unknown <==> !KnownDeps(ms)
    ensures unknown ==> dep !in Names(ms) && exists i :: 0 <= i < |ms| && ms[i].name == name && dep in ms[i].deps
    ensures !unknown ==> Counted(byName, inDegree, dependents)
  {
    inDegree, dependents, name, dep := map x | x in byName :: 0, map[], "", "";
    ghost var taken: map<string, seq<string>> := map x | x in byName :: [];
    for i := 0 to |ms|
      invariant Edges(byName, inDegree, dependents, taken) && Progress(ms, taken, i, 0)
      invariant forall k :: 0 <= k < i ==> DependsOnlyOn(ms[k], Names(ms))
    {
      unknown, dep, inDegree, dependents, taken := CountModule(ms, i, byName, inDegree, dependents, taken);
      if unknown { return true, ms[i].name, dep, inDegree, dependents; }
    }
    AllTaken(ms, byName, taken);
    unknown := false;
  }

  lemma AllTaken(ms: seq<Module>, byName: map<string, Module>, taken: map<string, seq<string>>)
    requires Index(ms, byName) && Progress(ms, taken, |ms|, 0) && taken.Keys == byName.Keys
    ensures taken == map x | x in byName :: byName[x].deps
  {
    forall x | x in byName ensures taken[x] == byName[x].deps {
      var k := Position(ms, x);
    }
  }

  // ---------------------------------------------------------------------------------------------
  // The queue
  // ---------------------------------------------------------------------------------------------

  ghost predicate NoRepeats(s: seq<string>) {
    forall i, j :: 0 <= i < j < |s| ==> s[i] != s[j]
  }

  /**
   * Between removals from the queue: the open dependencies of each module are counted, but for those
   * whose dependents are still listed in `pending`; exactly the modules with none open are done or queued.
   */
  ghost predicate Draining(byName: map<string, Module>, inDegree: map<string, int>, done: set<string>, queue: seq<string>,
                           pending: seq<string>) {
    && inDegree.Keys == byName.Keys && done <= byName.Keys && NoRepeats(queue)
    && (forall x :: x in byName ==> inDegree[x] == Open(byName[x].deps, done) + Occurs(pending, x))
    && (forall x :: x in queue ==> x in byName && x !in done)
    && (forall x :: x in byName ==> (inDegree[x] == 0 <==> x in done || x in queue))
  }

  lemma Removed(byName: map<string, Module>, inDegree: map<string, int>, done: set<string>, queue: seq<string>,
                taken: map<string, int>, dependents: map<string, seq<string>>)
    requires Draining(byName, inDegree, done, queue, []) && queue != []
    requires Counted(byName, taken, dependents)
    ensures var x := queue[0];
            && x in byName && x !in done && DependsOnlyOn(byName[x], done)
            && Draining(byName, inDegree, done + {x}, queue[1..], Dependents(dependents, x))
            && forall y :: y in Dependents(dependents, x) ==> y in byName
  {
    var x := queue[0];
    assert x in queue;
    OpenZero(byName[x].deps, done);
    forall y | y in byName
      ensures inDegree[y] == Open(byName[y].deps, done + {x}) + Occurs(Dependents(dependents, x), y)
    {
      OpenAfter(byName[y].deps, done, x);
    }
    assert queue == [x] + queue[1..];
  }

  lemma Decremented(byName: map<string, Module>, inDegree: map<string, int>, done: set<string>, queue: seq<string>,
                    pending: seq<string>)
    requires Draining(byName, inDegree, done, queue, pending) && pending != [] && pending[0] in byName
    ensures var y := pending[0];
            var less := inDegree[y := inDegree[y] - 1];
            Draining(byName, less, done, if less[y] == 0 then queue + [y] else queue, pending[1..])
  {
    var y := pending[0];
    assert pending == [y] + pending[1..];
    assert inDegree[y] > 0;
  }

  /** Counts down the dependents of a module that is done, and queues those with nothing left open. */
  method Settle(byName: map<string, Module>, inDegree0: map<string, int>, ghost done: set<string>, queue0: seq<string>,
                listed: seq<string>)
    returns (inDegree: map<string, int>, queue: seq<string>)
    requires Draining(byName, inDegree0, done, queue0, listed) && forall y :: y in listed ==> y in byName
    ensures Draining(byName, inDegree, done, queue, [])
  {
    inDegree, queue := inDegree0, queue0;
    for k := 0 to |listed|
      invariant Draining(byName, inDegree, done, queue, listed[k..])
    {
      assert listed[k..][0] == listed[k] && listed[k] in listed && listed[k..][1..] == listed[k + 1..];
      Decremented(byName, inDegree, done, queue, listed[k..]);
      var dep := listed[k];
      inDegree := inDegree[dep := inDegree[dep] - 1];
      if inDegree[dep] == 0 { queue := queue + [dep]; }
    }
    assert listed[|listed|..] == [];
  }

  ghost predicate Ordered(byName: map<string, Module>, sorted: seq<Module>) {
    DistinctNames(sorted) && DepsFirst(sorted) && Drawn(sorted, byName)
  }

  /** Taking the head of the queue extends the order; the head's dependents are still to be counted down. */
  lemma Popped(byName: map<string, Module>, inDegree: map<string, int>, sorted: seq<Module>, queue: seq<string>,
               taken: map<string, int>, dependents: map<string, seq<string>>)
    requires Draining(byName, inDegree, Names(sorted), queue, []) && queue != [] && Ordered(byName, sorted)
    requires Counted(byName, taken, dependents) && forall x :: x in byName ==> byName[x].name == x
    ensures queue[0] in byName
    ensures var next := sorted + [byName[queue[0]]];
            && Ordered(byName, next) && byName.Keys - Names(next) < byName.Keys - Names(sorted)
            && Draining(byName, inDegree, Names(next), queue[1..], Dependents(dependents, queue[0]))
            && forall y :: y in Dependents(dependents, queue[0]) ==> y in byName
  {
    Removed(byName, inDegree, Names(sorted), queue, taken, dependents);
    Extended(sorted, byName[queue[0]]);
  }

  method Drain(byName: map<string, Module>, first: seq<string>, inDegree0: map<string, int>, dependents: map<string, seq<string>>)
    returns (sorted: seq<Module>)
    requires Counted(byName, inDegree0, dependents) && Draining(byName, inDegree0, {}, first, [])
    requires forall x :: x in byName ==> byName[x].name == x
    ensures Ordered(byName, sorted)
    ensures forall x :: x in byName && x !in Names(sorted) ==> !DependsOnlyOn(byName[x], Names(sorted))
  {
    var inDegree, queue := inDegree0, first;
    sorted := [];
    assert Names([]) == {};
    while queue != []
      invariant Draining(byName, inDegree, Names(sorted), queue, []) && Ordered(byName, sorted)
      decreases byName.Keys - Names(sorted)
    {
      Popped(byName, inDegree, sorted, queue, inDegree0, dependents);
      var name := queue[0];
      sorted := sorted + [byName[name]];
      inDegree, queue := Settle(byName, inDegree, Names(sorted), queue[1..], if name in dependents then dependents[name] else []);
    }
    Stuck(byName, inDegree, sorted);
  }

  lemma Stuck(byName: map<string, Module>, inDegree: map<string, int>, sorted: seq<Module>)
    requires Draining(byName, inDegree, Names(sorted), [], [])
    ensures forall x :: x in byName && x !in Names(sorted) ==> !DependsOnlyOn(byName[x], Names(sorted))
  {
    forall x | x in byName && x !in Names(sorted) ensures !DependsOnlyOn(byName[x], Names(sorted)) {
      OpenZero(byName[x].deps, Names(sorted));
    }
  }

  lemma Extended(order: seq<Module>, m: Module)
    requires DistinctNames(order) && DepsFirst(order) && m.name !in Names(order)
    requires DependsOnlyOn(m, Names(order))
    ensures DistinctNames(order + [m]) && DepsFirst(order + [m]) && Names(order + [m]) == Names(order) + {m.name}
  {
    var next := order + [m];
    forall i | 0 <= i < |next| ensures DependsOnlyOn(next[i], Names(next[..i])) {
      if i < |order| {
        assert next[..i] == order[..i] && next[i] == order[i];
      } else {
        assert next[..i] == order;
      }
    }
    NamesNext(next, |order|);
    assert next[..|order|] == order && next[..|order| + 1] == next;
    forall i, j | 0 <= i < j < |next| ensures next[i].name != next[j].name { HasName(order, i); }
  }

  // ---------------------------------------------------------------------------------------------
  // Soundness and completeness
  // ---------------------------------------------------------------------------------------------

  lemma {:induction false} NamesCount(ms: seq<Module>)
    requires DistinctNames(ms)
    ensures |Names(ms)| == |ms|
  {
    if ms != [] {
      var front, last := ms[..|ms| - 1], ms[|ms| - 1];
      NamesCount(front);
      NotYet(ms, |ms| - 1);
    }
  }

  lemma {:induction false} OnceEach(ms: seq<Module>, m: Module)
    requires DistinctNames(ms)
    ensures multiset(ms)[m] == if m in ms then 1 else 0
  {
    if ms != [] {
      var front, last := ms[..|ms| - 1], ms[|ms| - 1];
      OnceEach(front, m);
      assert ms == front + [last];
    }
  }

  lemma DrawnMember(ms: seq<Module>, byName: map<string, Module>, m: Module)
    requires Drawn(ms, byName)
    ensures m in ms <==> m.name in Names(ms) && m.name in byName && byName[m.name] == m
  {
    if m in ms {
      var i :| 0 <= i < |ms| && ms[i] == m;
      HasName(ms, i);
    }
    if m.name in Names(ms) { var j := Position(ms, m.name); }
  }

  lemma SameModules(order: seq<Module>, ms: seq<Module>, byName: map<string, Module>)
    requires DistinctNames(order) && DistinctNames(ms) && Names(order) == Names(ms) && Drawn(order, byName) && Drawn(ms, byName)
    ensures multiset(order) == multiset(ms)
  {
    forall m ensures multiset(order)[m] == multiset(ms)[m] {
      OnceEach(order, m);
      OnceEach(ms, m);
      DrawnMember(order, byName, m);
      DrawnMember(ms, byName, m);
    }
  }

  /** An order with every dependency first leaves no knot among its modules. */
  lemma OrderedHasNoKnot(order: seq<Module>, s: set<string>)
    requires DepsFirst(order)
    ensures !Knot(order, s)
  {
    if Knot(order, s) {
      var x :| x in s;
      var i := Position(order, x);
      NoMember(order, s, i);
    }
  }

  lemma {:induction false} NoMember(order: seq<Module>, s: set<string>, i: nat)
    requires DepsFirst(order) && Knot(order, s) && i < |order|
    ensures order[i].name !in s
  {
    var m := order[i];
    if m.name in s {
      assert DependsInto(m, s);
      var d :| d in m.deps && d in s;
      assert DependsOnlyOn(m, Names(order[..i]));
      var j := Position(order[..i], d);
      NoMember(order, s, j);
    }
  }

  /**
   * Success returns the modules in some order with every dependency before its dependents; each error
   * is reported exactly when its cause exists, and a circular dependency exactly when there is a knot.
   */
  method TopoSort(ms: seq<Module>) returns (r: Outcome)
    ensures r.Duplicate? <==> !DistinctNames(ms)
    ensures r.Duplicate? ==> exists i, j :: 0 <= i < j < |ms| && ms[i].name == r.name == ms[j].name
    ensures r.UnknownDep? <==> DistinctNames(ms) && !KnownDeps(ms)
    ensures r.UnknownDep? ==> r.dep !in Names(ms) && exists i :: 0 <= i < |ms| && ms[i].name == r.name && r.dep in ms[i].deps
    ensures r.Circular? <==> DistinctNames(ms) && KnownDeps(ms) && exists s :: Knot(ms, s)
    ensures r.Sorted? ==> multiset(r.order) == multiset(ms) && DepsFirst(r.order)
  {
    var repeated, twice, byName := IndexModules(ms);
    if repeated { return Duplicate(twice); }
    var unknown, name, dep, inDegree, dependents := CountEdges(ms, byName);
    if unknown { return UnknownDep(name, dep); }
    var queue := FirstQueue(ms, byName, inDegree, dependents);
    NamedByKey(ms, byName);
    var sorted := Drain(byName, queue, inDegree, dependents);
    NamesCount(ms);
    NamesCount(sorted);
    if |sorted| != |ms| {
      ShortIsKnot(ms, byName, sorted);
      return Circular;
    }
    FullIsSorted(ms, byName, sorted);
    r := Sorted(sorted);
  }

  lemma NamedByKey(ms: seq<Module>, byName: map<string, Module>)
    requires Index(ms, byName)
    ensures forall x :: x in byName ==> byName[x].name == x
  {
    forall x | x in byName ensures byName[x].name == x { var j := Position(ms, x); }
  }

  lemma FullIsSorted(ms: seq<Module>, byName: map<string, Module>, sorted: seq<Module>)
    requires DistinctNames(ms) && Index(ms, byName) && DistinctNames(sorted) && DepsFirst(sorted) && |sorted| == |ms|
    requires Drawn(sorted, byName)
    ensures multiset(sorted) == multiset(ms) && forall s :: !Knot(ms, s)
  {
    NamesCount(ms);
    NamesCount(sorted);
    DrawnNames(ms, byName, sorted);
    SubsetEqual(Names(sorted), Names(ms));
    SameModules(sorted, ms, byName);
    forall s ensures !Knot(ms, s) {
      OrderedHasNoKnot(sorted, s);
      if Knot(ms, s) { KnotMoves(sorted, ms, s); }
    }
  }

  lemma DrawnNames(ms: seq<Module>, byName: map<string, Module>, sorted: seq<Module>)
    requires Index(ms, byName) && Drawn(sorted, byName)
    ensures Names(sorted) <= Names(ms)
  {
    forall x | x in Names(sorted) ensures x in Names(ms) { var j := Position(sorted, x); }
  }

  method FirstQueue(ms: seq<Module>, byName: map<string, Module>, inDegree: map<string, int>, dependents: map<string, seq<string>>)
    returns (queue: seq<string>)
    requires DistinctNames(ms) && Index(ms, byName) && Counted(byName, inDegree, dependents)
    ensures Draining(byName, inDegree, {}, queue, [])
  {
    queue := [];
    for i := 0 to |ms|
      invariant NoRepeats(queue)
      invariant forall x :: x in queue <==> x in Names(ms[..i]) && x in byName && inDegree[x] == 0
    {
      NamesNext(ms, i);
      NotYet(ms, i);
      if inDegree[ms[i].name] == 0 { queue := queue + [ms[i].name]; }
    }
    assert ms[..|ms|] == ms;
    forall x | x in byName ensures inDegree[x] == Open(byName[x].deps, {}) { OpenNone(byName[x].deps); }
  }

  lemma NotYet(ms: seq<Module>, i: nat)
    requires DistinctNames(ms) && i < |ms|
    ensures ms[i].name !in Names(ms[..i])
  {
    if ms[i].name in Names(ms[..i]) { var j := Position(ms[..i], ms[i].name); }
  }

  lemma ShortIsKnot(ms: seq<Module>, byName: map<string, Module>, sorted: seq<Module>)
    requires Index(ms, byName) && KnownDeps(ms) && Drawn(sorted, byName) && |Names(sorted)| != |Names(ms)|
    requires forall x :: x in byName && x !in Names(sorted) ==> !DependsOnlyOn(byName[x], Names(sorted))
    ensures Knot(ms, Names(ms) - Names(sorted))
  {
    DrawnNames(ms, byName, sorted);
    var s := Names(ms) - Names(sorted);
    assert s == {} ==> Names(ms) == Names(sorted);
    forall i | 0 <= i < |ms| && ms[i].name in s ensures DependsInto(ms[i], s) {
      var d :| d in ms[i].deps && d !in Names(sorted);
      assert DependsOnlyOn(ms[i], Names(ms));
      assert d in s;
    }
  }

  lemma SubsetEqual(a: set<string>, b: set<string>)
    requires a <= b && |a| == |b|
    ensures a == b
  {
    assert b == a + (b - a);
  }

  lemma KnotMoves(a: seq<Module>, b: seq<Module>, s: set<string>)
    requires multiset(a) == multiset(b) && Names(a) == Names(b) && Knot(b, s)
    ensures Knot(a, s)
  {
    forall i | 0 <= i < |a| && a[i].name in s ensures DependsInto(a[i], s) {
      assert a[i] in multiset(b);
      var j :| 0 <= j < |b| && b[j] == a[i];
    }
  }
}
