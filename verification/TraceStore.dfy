/**
 * The trace store: chains and their steps, saved all or nothing, pruned oldest first, read back in order.
 *
 * A table is the sequence of its rows.  The chains table is kept in the order of its index on start time
 * and id, the steps table in insertion order; no query depends on more than that.
 */
module TraceStore {
  import opened Basics
  import opened Sorting
  import opened TraceRecords

  const DEFAULT_MAX_CHAINS: nat := 10000
  const DEFAULT_MAX_STEPS: nat := 100000

  datatype ChainRow = ChainRow(chain: Chain, root: string)

  /** A step as stored: its body holds stored texts, and none when the payload is the chain's root. */
  datatype StepRow = StepRow(step: Step, isRoot: bool)

  datatype Db = Db(chains: seq<ChainRow>, steps: seq<StepRow>)

  function ChainKey(r: ChainRow): Key { Key(r.chain.startedAt, 0, r.chain.id) }

  function RowKey(r: StepRow): Key { StepKey(r.step) }

  // ---------------------------------------------------------------------------------------------
  // Queries
  // ---------------------------------------------------------------------------------------------

  function ChainAt(chains: seq<ChainRow>, id: string): Option<ChainRow> {
    if chains == [] then None else if chains[0].chain.id == id then Some(chains[0]) else ChainAt(chains[1..], id)
  }

  function ChainsWithout(chains: seq<ChainRow>, gone: set<string>): seq<ChainRow> {
    if chains == [] then []
    else if chains[0].chain.id in gone then ChainsWithout(chains[1..], gone)
    else [chains[0]] + ChainsWithout(chains[1..], gone)
  }

  function Rows(steps: seq<StepRow>, id: string): seq<StepRow> {
    if steps == [] then []
    else if steps[0].step.chainId == id then [steps[0]] + Rows(steps[1..], id)
    else Rows(steps[1..], id)
  }

  function StepsWithout(steps: seq<StepRow>, gone: set<string>): seq<StepRow> {
    if steps == [] then []
    else if steps[0].step.chainId in gone then StepsWithout(steps[1..], gone)
    else [steps[0]] + StepsWithout(steps[1..], gone)
  }

  function Total(chains: seq<ChainRow>): nat {
    if chains == [] then 0 else chains[0].chain.stepCount + Total(chains[1..])
  }

  function Ids(chains: seq<ChainRow>): set<string> {
    if chains == [] then {} else {chains[0].chain.id} + Ids(chains[1..])
  }

  /** The step that the read query returns for a row. */
  function Shown(root: string, r: StepRow): Step {
    r.step.(body := r.step.body.(payload := Resolved(root, Stored(r.step.body.payload, r.isRoot))))
  }

  function ShownAll(root: string, rows: seq<StepRow>): (steps: seq<Step>)
    ensures |steps| == |rows| && forall i :: 0 <= i < |rows| ==> steps[i] == Shown(root, rows[i])
  {
    if rows == [] then [] else [Shown(root, rows[0])] + ShownAll(root, rows[1..])
  }

  function Read(db: Db, id: string): Option<TraceRecord> {
    var c := ChainAt(db.chains, id);
    if c.None? then None
    else
      var rows := Sort(Rows(db.steps, id), RowKey);
      Some(TraceRecord(c.value.chain.(stepCount := |rows|), ShownAll(c.value.root, rows)))
  }

  // ---------------------------------------------------------------------------------------------
  // What a save does
  // ---------------------------------------------------------------------------------------------

  function PlannedRow(s: Step, p: Stored): StepRow {
    StepRow(s.(body := Body(p.payload, StoredText(s.body.before), StoredText(s.body.after))), p.isRoot)
  }

  function NewRow(steps: seq<Step>, i: nat): StepRow
    requires i < |steps|
  {
    PlannedRow(steps[i], StoredPayload(steps, i))
  }

  function NewRows(steps: seq<Step>, n: nat): (rows: seq<StepRow>)
    requires n <= |steps|
    ensures |rows| == n && forall i :: 0 <= i < n ==> rows[i] == NewRow(steps, i)
  {
    if n == 0 then [] else NewRows(steps, n - 1) + [NewRow(steps, n - 1)]
  }

  ghost predicate DistinctSteps(steps: seq<StepRow>) {
    forall i, j :: 0 <= i < j < |steps| ==> steps[i].step.id != steps[j].step.id
  }

  function Upserted(chains: seq<ChainRow>, row: ChainRow): seq<ChainRow> {
    Insert(row, ChainsWithout(chains, {row.chain.id}), ChainKey)
  }

  /** The tables before pruning. */
  function Written(db: Db, rec: TraceRecord): Db {
    Db(Upserted(db.chains, ChainRow(rec.chain, RootText(rec.steps))),
       StepsWithout(db.steps, {rec.chain.id}) + NewRows(rec.steps, |rec.steps|))
  }

  datatype Limits = Limits(chains: nat, steps: nat)

  /** How many of the oldest chains go: stop as soon as both limits hold. */
  function Evictions(order: seq<ChainRow>, chains: int, steps: int, max: Limits): (k: nat)
    ensures k <= |order|
  {
    if order == [] || (chains <= max.chains && steps <= max.steps) then 0
    else 1 + Evictions(order[1..], chains - 1, steps - order[0].chain.stepCount, max)
  }

  function Evicted(chains: seq<ChainRow>, max: Limits): set<string> {
    var order := Sort(chains, ChainKey);
    Ids(order[..Evictions(order, |order|, Total(order), max)])
  }

  function Pruned(db: Db, max: Limits): Db {
    var gone := Evicted(db.chains, max);
    Db(ChainsWithout(db.chains, gone), StepsWithout(db.steps, gone))
  }

  /** The saved state, or None when two step rows would share an id. */
  ghost function Saved(db: Db, rec: TraceRecord, max: Limits): Option<Db> {
    if DistinctSteps(Written(db, rec).steps) then Some(Pruned(Written(db, rec), max)) else None
  }

  // ---------------------------------------------------------------------------------------------
  // The invariant
  // ---------------------------------------------------------------------------------------------

  ghost predicate DistinctChains(chains: seq<ChainRow>) {
    forall i, j :: 0 <= i < j < |chains| ==> chains[i].chain.id != chains[j].chain.id
  }

  /** Every parent that is named is the id of an earlier row. */
  ghost predicate ParentsEarlier(rows: seq<StepRow>) {
    forall i :: 0 <= i < |rows| && rows[i].step.parent != "" ==>
      exists j :: 0 <= j < i && rows[j].step.id == rows[i].step.parent
  }

  ghost predicate GoodRows(rows: seq<StepRow>) {
    Sorted(rows, RowKey) && ParentsEarlier(rows)
  }

  ghost predicate Counted(chains: seq<ChainRow>, steps: seq<StepRow>) {
    forall i :: 0 <= i < |chains| ==> chains[i].chain.stepCount == |Rows(steps, chains[i].chain.id)|
  }

  ghost predicate Owned(chains: seq<ChainRow>, steps: seq<StepRow>) {
    forall i :: 0 <= i < |steps| ==> steps[i].step.chainId in Ids(chains)
  }

  ghost predicate Inv(db: Db) {
    && Sorted(db.chains, ChainKey) && DistinctChains(db.chains) && DistinctSteps(db.steps)
    && Owned(db.chains, db.steps) && Counted(db.chains, db.steps)
    && forall id :: GoodRows(Rows(db.steps, id))
  }

  ghost predicate Within(db: Db, max: Limits) {
    |db.chains| <= max.chains && |db.steps| <= max.steps
  }

  /** A record as normalisation leaves it. */
  ghost predicate Ready(rec: TraceRecord) {
    && Sorted(rec.steps, StepKey) && ParentsFirst(rec.steps) && rec.chain.stepCount == |rec.steps|
    && forall i :: 0 <= i < |rec.steps| ==> rec.steps[i].chainId == rec.chain.id
  }

  // ---------------------------------------------------------------------------------------------
  // Rows
  // ---------------------------------------------------------------------------------------------

  lemma {:induction false} RowsConcat(a: seq<StepRow>, b: seq<StepRow>, id: string)
    ensures Rows(a + b, id) == Rows(a, id) + Rows(b, id)
  {
    if a == [] {
      assert a + b == b;
    } else {
      assert (a + b)[1..] == a[1..] + b;
      RowsConcat(a[1..], b, id);
    }
  }

  lemma {:induction false} RowsOfOne(steps: seq<StepRow>, chainId: string, id: string)
    requires forall i :: 0 <= i < |steps| ==> steps[i].step.chainId == chainId
    ensures Rows(steps, id) == if id == chainId then steps else []
  {
    if steps != [] { RowsOfOne(steps[1..], chainId, id); }
  }

  /** Deleting whole chains leaves the rows of the others exactly as they were. */
  lemma {:induction false} RowsWithout(steps: seq<StepRow>, gone: set<string>, id: string)
    ensures Rows(StepsWithout(steps, gone), id) == if id in gone then [] else Rows(steps, id)
  {
    if steps != [] {
      RowsWithout(steps[1..], gone, id);
      var rest := StepsWithout(steps[1..], gone);
      if steps[0].step.chainId !in gone { assert ([steps[0]] + rest)[1..] == rest; }
    }
  }

  lemma {:induction false} SizeSplits(steps: seq<StepRow>, id: string)
    ensures |steps| == |Rows(steps, id)| + |StepsWithout(steps, {id})|
  {
    if steps != [] { SizeSplits(steps[1..], id); }
  }

  lemma {:induction false} WithoutMembers(steps: seq<StepRow>, gone: set<string>)
    ensures forall r :: r in StepsWithout(steps, gone) <==> r in steps && r.step.chainId !in gone
    ensures DistinctSteps(steps) ==> DistinctSteps(StepsWithout(steps, gone))
  {
    if steps != [] {
      WithoutMembers(steps[1..], gone);
      assert steps == [steps[0]] + steps[1..];
      var rest := StepsWithout(steps[1..], gone);
      if DistinctSteps(steps) {
        forall j | 0 <= j < |rest| ensures rest[j].step.id != steps[0].step.id {
          assert rest[j] in steps[1..];
        }
      }
    }
  }

  // ---------------------------------------------------------------------------------------------
  // Chains
  // ---------------------------------------------------------------------------------------------

  lemma {:induction false} IdsHas(chains: seq<ChainRow>, i: nat)
    requires i < |chains|
    ensures chains[i].chain.id in Ids(chains)
  {
    if i > 0 { IdsHas(chains[1..], i - 1); }
  }

  lemma {:induction false} IdsAt(chains: seq<ChainRow>, id: string) returns (i: nat)
    requires id in Ids(chains)
    ensures i < |chains| && chains[i].chain.id == id
  {
    if chains[0].chain.id == id { i := 0; } else { i := IdsAt(chains[1..], id); i := i + 1; }
  }

  lemma {:induction false} ChainAtFacts(chains: seq<ChainRow>, id: string)
    ensures ChainAt(chains, id).Some? <==> id in Ids(chains)
    ensures ChainAt(chains, id).Some? ==> ChainAt(chains, id).value in chains && ChainAt(chains, id).value.chain.id == id
  {
    if chains != [] { ChainAtFacts(chains[1..], id); }
  }

  lemma {:induction false} ChainIsAt(chains: seq<ChainRow>, i: nat)
    requires DistinctChains(chains) && i < |chains|
    ensures ChainAt(chains, chains[i].chain.id) == Some(chains[i])
  {
    if i > 0 { ChainIsAt(chains[1..], i - 1); }
  }

  lemma {:induction false} ChainsWithoutMembers(chains: seq<ChainRow>, gone: set<string>)
    ensures forall c :: c in ChainsWithout(chains, gone) <==> c in chains && c.chain.id !in gone
  {
    if chains != [] {
      ChainsWithoutMembers(chains[1..], gone);
      assert chains == [chains[0]] + chains[1..];
    }
  }

  lemma {:induction false} ChainsWithoutOrder(chains: seq<ChainRow>, gone: set<string>)
    requires Sorted(chains, ChainKey) && DistinctChains(chains)
    ensures Sorted(ChainsWithout(chains, gone), ChainKey) && DistinctChains(ChainsWithout(chains, gone))
  {
    if chains != [] {
      ChainsWithoutOrder(chains[1..], gone);
      var rest := ChainsWithout(chains[1..], gone);
      forall j | 0 <= j < |rest|
        ensures !Less(ChainKey(rest[j]), ChainKey(chains[0])) && rest[j].chain.id != chains[0].chain.id
      {
        ChainsWithoutMembers(chains[1..], gone);
        assert rest[j] in chains[1..];
        var k :| 0 <= k < |chains[1..]| && chains[1..][k] == rest[j];
        assert chains[k + 1] == rest[j];
      }
    }
  }

  lemma ChainsWithoutFacts(chains: seq<ChainRow>, gone: set<string>)
    requires Sorted(chains, ChainKey) && DistinctChains(chains)
    ensures var r := ChainsWithout(chains, gone);
            && (forall c :: c in r <==> c in chains && c.chain.id !in gone)
            && Sorted(r, ChainKey) && DistinctChains(r)
  {
    ChainsWithoutMembers(chains, gone);
    ChainsWithoutOrder(chains, gone);
  }

  lemma {:induction false} ChainAtWithout(chains: seq<ChainRow>, gone: set<string>, id: string)
    ensures ChainAt(ChainsWithout(chains, gone), id) == if id in gone then None else ChainAt(chains, id)
    ensures id in Ids(ChainsWithout(chains, gone)) <==> id in Ids(chains) && id !in gone
  {
    if chains != [] {
      ChainAtWithout(chains[1..], gone, id);
      var rest := ChainsWithout(chains[1..], gone);
      if chains[0].chain.id !in gone { assert ([chains[0]] + rest)[1..] == rest; }
    }
  }

  lemma {:induction false} InsertLookup(row: ChainRow, chains: seq<ChainRow>, id: string)
    requires row.chain.id !in Ids(chains)
    ensures var r := Insert(row, chains, ChainKey);
            && (id in Ids(r) <==> id in Ids(chains) || id == row.chain.id)
            && ChainAt(r, id) == if id == row.chain.id then Some(row) else ChainAt(chains, id)
    decreases chains
  {
    var r := Insert(row, chains, ChainKey);
    if chains != [] && Less(ChainKey(chains[0]), ChainKey(row)) {
      InsertLookup(row, chains[1..], id);
      assert r[1..] == Insert(row, chains[1..], ChainKey);
    } else {
      assert r[1..] == chains;
      if id == row.chain.id && ChainAt(chains, id).Some? { ChainAtFacts(chains, id); }
    }
  }

  lemma InsertMembers(row: ChainRow, chains: seq<ChainRow>)
    requires Sorted(chains, ChainKey)
    ensures Sorted(Insert(row, chains, ChainKey), ChainKey)
    ensures forall c :: c in Insert(row, chains, ChainKey) <==> c == row || c in chains
  {
    InsertFacts(row, chains, ChainKey);
    assert forall c :: c in Insert(row, chains, ChainKey) <==> c in multiset(chains) + multiset{row} by {
      forall c ensures c in Insert(row, chains, ChainKey) <==> c in multiset(chains) + multiset{row} {
        assert c in Insert(row, chains, ChainKey) <==> c in multiset(Insert(row, chains, ChainKey));
      }
    }
  }

  lemma {:induction false} InsertDistinct(row: ChainRow, chains: seq<ChainRow>)
    requires Sorted(chains, ChainKey) && DistinctChains(chains) && row.chain.id !in Ids(chains)
    ensures DistinctChains(Insert(row, chains, ChainKey))
    decreases chains
  {
    if chains != [] && Less(ChainKey(chains[0]), ChainKey(row)) {
      InsertDistinct(row, chains[1..]);
      InsertMembers(row, chains[1..]);
      var rest := Insert(row, chains[1..], ChainKey);
      forall j | 0 <= j < |rest| ensures rest[j].chain.id != chains[0].chain.id {
        assert rest[j] in rest;
        if rest[j] != row {
          var k :| 0 <= k < |chains[1..]| && chains[1..][k] == rest[j];
          assert chains[k + 1] == rest[j];
        }
      }
    } else {
      forall j | 0 <= j < |chains| ensures chains[j].chain.id != row.chain.id { IdsHas(chains, j); }
    }
  }

  lemma InsertChain(row: ChainRow, chains: seq<ChainRow>)
    requires Sorted(chains, ChainKey) && DistinctChains(chains) && row.chain.id !in Ids(chains)
    ensures var r := Insert(row, chains, ChainKey);
            && Sorted(r, ChainKey) && DistinctChains(r)
            && (forall id :: id in Ids(r) <==> id in Ids(chains) || id == row.chain.id)
            && (forall id :: ChainAt(r, id) == if id == row.chain.id then Some(row) else ChainAt(chains, id))
            && (forall c :: c in r <==> c == row || c in chains)
  {
    InsertMembers(row, chains);
    InsertDistinct(row, chains);
    var r := Insert(row, chains, ChainKey);
    forall id
      ensures id in Ids(r) <==> id in Ids(chains) || id == row.chain.id
      ensures ChainAt(r, id) == if id == row.chain.id then Some(row) else ChainAt(chains, id)
    {
      InsertLookup(row, chains, id);
    }
  }

  lemma OwnerExists(chains: seq<ChainRow>, steps: seq<StepRow>)
    requires Owned(chains, steps)
    ensures steps != [] ==> chains != []
  {
    if steps != [] { var k := IdsAt(chains, steps[0].step.chainId); }
  }

  /** The step counts of distinct chains that own all rows add up to the number of rows. */
  lemma {:induction false} TotalIsSize(chains: seq<ChainRow>, steps: seq<StepRow>)
    requires DistinctChains(chains) && Owned(chains, steps) && Counted(chains, steps)
    ensures Total(chains) == |steps|
    decreases chains
  {
    if chains == [] {
      OwnerExists(chains, steps);
    } else {
      var id := chains[0].chain.id;
      var rest := StepsWithout(steps, {id});
      SizeSplits(steps, id);
      WithoutMembers(steps, {id});
      forall i | 0 <= i < |rest| ensures rest[i].step.chainId in Ids(chains[1..]) {
        assert rest[i] in steps;
        var k :| 0 <= k < |steps| && steps[k] == rest[i];
        assert steps[k].step.chainId in Ids(chains);
      }
      forall i | 0 <= i < |chains[1..]|
        ensures chains[1..][i].chain.stepCount == |Rows(rest, chains[1..][i].chain.id)|
      {
        assert chains[1..][i] == chains[i + 1];
        RowsWithout(steps, {id}, chains[i + 1].chain.id);
      }
      TotalIsSize(chains[1..], rest);
    }
  }

  // ---------------------------------------------------------------------------------------------
  // Pruning
  // ---------------------------------------------------------------------------------------------

  ghost predicate Fit(order: seq<ChainRow>, k: nat, max: Limits)
    requires k <= |order|
  {
    |order| - k <= max.chains && Total(order[k..]) <= max.steps
  }

  /** The evicted chains are the shortest oldest-first prefix that restores both limits. */
  lemma {:induction false} ShortestPrefix(order: seq<ChainRow>, max: Limits)
    ensures var k := Evictions(order, |order|, Total(order), max);
            Fit(order, k, max) && forall m: nat :: m < k ==> !Fit(order, m, max)
  {
    var k := Evictions(order, |order|, Total(order), max);
    assert order[0..] == order;
    if k > 0 {
      ShortestPrefix(order[1..], max);
      assert order[k..] == order[1..][k - 1..];
      forall m: nat | m < k ensures !Fit(order, m, max) {
        if m > 0 {
          assert order[m..] == order[1..][m - 1..];
          assert !Fit(order[1..], m - 1, max);
        } else {
          assert order[m..] == order;
        }
      }
    }
  }

  lemma {:induction false} KeepAll(chains: seq<ChainRow>, gone: set<string>)
    requires forall i :: 0 <= i < |chains| ==> chains[i].chain.id !in gone
    ensures ChainsWithout(chains, gone) == chains
  {
    if chains != [] { KeepAll(chains[1..], gone); }
  }

  lemma {:induction false} DropFront(chains: seq<ChainRow>, k: nat, gone: set<string>)
    requires k <= |chains| && (forall i :: 0 <= i < k ==> chains[i].chain.id in gone)
    requires forall i :: k <= i < |chains| ==> chains[i].chain.id !in gone
    ensures ChainsWithout(chains, gone) == chains[k..]
  {
    if k == 0 { KeepAll(chains, gone); } else { DropFront(chains[1..], k - 1, gone); }
  }

  lemma PrunedChains(db: Db, max: Limits)
    requires Sorted(db.chains, ChainKey) && DistinctChains(db.chains)
    ensures var k := Evictions(db.chains, |db.chains|, Total(db.chains), max);
            Pruned(db, max).chains == db.chains[k..] && Evicted(db.chains, max) == Ids(db.chains[..k])
  {
    SortSorted(db.chains, ChainKey);
    var k := Evictions(db.chains, |db.chains|, Total(db.chains), max);
    var gone := Ids(db.chains[..k]);
    forall i | 0 <= i < k ensures db.chains[i].chain.id in gone { IdsHas(db.chains[..k], i); }
    forall i | k <= i < |db.chains| ensures db.chains[i].chain.id !in gone {
      if db.chains[i].chain.id in gone { var j := IdsAt(db.chains[..k], db.chains[i].chain.id); }
    }
    DropFront(db.chains, k, gone);
  }

  lemma PrunedKeepsInv(db: Db, max: Limits)
    requires Inv(db)
    ensures Inv(Pruned(db, max)) && Within(Pruned(db, max), max)
  {
    var gone, p := Evicted(db.chains, max), Pruned(db, max);
    ChainsWithoutFacts(db.chains, gone);
    WithoutMembers(db.steps, gone);
    forall i | 0 <= i < |p.steps| ensures p.steps[i].step.chainId in Ids(p.chains) {
      assert p.steps[i] in db.steps;
      var k :| 0 <= k < |db.steps| && db.steps[k] == p.steps[i];
      assert db.steps[k].step.chainId in Ids(db.chains);
      ChainAtWithout(db.chains, gone, p.steps[i].step.chainId);
    }
    forall i | 0 <= i < |p.chains| ensures p.chains[i].chain.stepCount == |Rows(p.steps, p.chains[i].chain.id)| {
      assert p.chains[i] in db.chains;
      var k :| 0 <= k < |db.chains| && db.chains[k] == p.chains[i];
      RowsWithout(db.steps, gone, p.chains[i].chain.id);
    }
    forall id ensures GoodRows(Rows(p.steps, id)) {
      assert GoodRows(Rows(db.steps, id));
      RowsWithout(db.steps, gone, id);
    }
    PrunedChains(db, max);
    ShortestPrefix(db.chains, max);
    TotalIsSize(p.chains, p.steps);
  }

  // ---------------------------------------------------------------------------------------------
  // Writing
  // ---------------------------------------------------------------------------------------------

  lemma NewRowsAreGood(rec: TraceRecord)
    requires Ready(rec)
    ensures GoodRows(NewRows(rec.steps, |rec.steps|))
  {
    var rows := NewRows(rec.steps, |rec.steps|);
    assert forall i :: 0 <= i < |rows| ==> RowKey(rows[i]) == StepKey(rec.steps[i]);
    forall i | 0 <= i < |rows| && rows[i].step.parent != ""
      ensures exists j :: 0 <= j < i && rows[j].step.id == rows[i].step.parent
    {
      assert rec.steps[i].parent != "";
      var j :| 0 <= j < i && rec.steps[j].id == rec.steps[i].parent;
      assert rows[j].step.id == rows[i].step.parent;
    }
  }

  lemma WrittenRows(db: Db, rec: TraceRecord, id: string)
    requires Ready(rec)
    ensures Rows(Written(db, rec).steps, id)
         == if id == rec.chain.id then NewRows(rec.steps, |rec.steps|) else Rows(db.steps, id)
  {
    NewRowsOfOne(rec, id);
    RowsConcat(StepsWithout(db.steps, {rec.chain.id}), NewRows(rec.steps, |rec.steps|), id);
    RowsWithout(db.steps, {rec.chain.id}, id);
  }

  lemma NewRowsOfOne(rec: TraceRecord, id: string)
    requires Ready(rec)
    ensures Rows(NewRows(rec.steps, |rec.steps|), id)
         == if id == rec.chain.id then NewRows(rec.steps, |rec.steps|) else []
  {
    var rows := NewRows(rec.steps, |rec.steps|);
    assert forall i :: 0 <= i < |rows| ==> rows[i].step.chainId == rec.steps[i].chainId;
    RowsOfOne(rows, rec.chain.id, id);
  }

  lemma WrittenChains(db: Db, rec: TraceRecord)
    requires Inv(db)
    ensures var chains, row := Written(db, rec).chains, ChainRow(rec.chain, RootText(rec.steps));
            && Sorted(chains, ChainKey) && DistinctChains(chains) && Ids(chains) == Ids(db.chains) + {rec.chain.id}
            && (forall id :: ChainAt(chains, id) == if id == rec.chain.id then Some(row) else ChainAt(db.chains, id))
            && (forall c :: c in chains ==> c == row || (c in db.chains && c.chain.id != rec.chain.id))
  {
    var base := ChainsWithout(db.chains, {rec.chain.id});
    ChainsWithoutFacts(db.chains, {rec.chain.id});
    forall id
      ensures ChainAt(base, id) == if id == rec.chain.id then None else ChainAt(db.chains, id)
      ensures id in Ids(base) <==> id in Ids(db.chains) && id != rec.chain.id
    {
      ChainAtWithout(db.chains, {rec.chain.id}, id);
    }
    InsertChain(ChainRow(rec.chain, RootText(rec.steps)), base);
  }

  lemma WrittenOwned(db: Db, rec: TraceRecord)
    requires Inv(db) && Ready(rec)
    ensures Owned(Written(db, rec).chains, Written(db, rec).steps)
  {
    var w, base := Written(db, rec), StepsWithout(db.steps, {rec.chain.id});
    WrittenChains(db, rec);
    WithoutMembers(db.steps, {rec.chain.id});
    forall i | 0 <= i < |w.steps| ensures w.steps[i].step.chainId in Ids(w.chains) {
      if i < |base| {
        assert base[i] in db.steps;
        var k :| 0 <= k < |db.steps| && db.steps[k] == base[i];
        assert db.steps[k].step.chainId in Ids(db.chains);
      }
    }
  }

  lemma WrittenCounted(db: Db, rec: TraceRecord)
    requires Inv(db) && Ready(rec)
    ensures Counted(Written(db, rec).chains, Written(db, rec).steps)
  {
    var w := Written(db, rec);
    WrittenChains(db, rec);
    forall i | 0 <= i < |w.chains| ensures w.chains[i].chain.stepCount == |Rows(w.steps, w.chains[i].chain.id)| {
      WrittenRows(db, rec, w.chains[i].chain.id);
      assert w.chains[i] in w.chains;
      if w.chains[i] in db.chains {
        var k :| 0 <= k < |db.chains| && db.chains[k] == w.chains[i];
      }
    }
  }

  lemma WrittenGood(db: Db, rec: TraceRecord, id: string)
    requires Inv(db) && Ready(rec)
    ensures GoodRows(Rows(Written(db, rec).steps, id))
  {
    WrittenRows(db, rec, id);
    NewRowsAreGood(rec);
    assert GoodRows(Rows(db.steps, id));
  }

  lemma WrittenKeepsInv(db: Db, rec: TraceRecord)
    requires Inv(db) && Ready(rec) && DistinctSteps(Written(db, rec).steps)
    ensures Inv(Written(db, rec))
  {
    WrittenChains(db, rec);
    WrittenOwned(db, rec);
    WrittenCounted(db, rec);
    forall id ensures GoodRows(Rows(Written(db, rec).steps, id)) { WrittenGood(db, rec, id); }
  }

  /** A successful save keeps the invariant and restores both limits. */
  lemma SavedKeepsInv(db: Db, rec: TraceRecord, max: Limits)
    requires Inv(db) && Ready(rec) && Saved(db, rec, max).Some?
    ensures Inv(Saved(db, rec, max).value) && Within(Saved(db, rec, max).value, max)
  {
    WrittenKeepsInv(db, rec);
    PrunedKeepsInv(Written(db, rec), max);
  }

  /**
   * What a save evicts: the shortest prefix of the chains, oldest first and the saved one included, whose
   * removal restores both limits.
   */
  lemma EvictsShortestPrefix(db: Db, rec: TraceRecord, max: Limits)
    requires Inv(db) && Ready(rec) && Saved(db, rec, max).Some?
    ensures var all := Written(db, rec).chains;
            exists k: nat ::
              && k <= |all| && Saved(db, rec, max).value.chains == all[k..]
              && Fit(all, k, max) && forall m: nat :: m < k ==> !Fit(all, m, max)
  {
    WrittenChains(db, rec);
    PrunedChains(Written(db, rec), max);
    ShortestPrefix(Written(db, rec).chains, max);
  }

  /** The other chains that a save of `row` leaves, as far as they are not older than it; in order. */
  function NotOlder(chains: seq<ChainRow>, row: ChainRow): seq<ChainRow> {
    if chains == [] then []
    else if chains[0].chain.id == row.chain.id || Less(ChainKey(chains[0]), ChainKey(row)) then NotOlder(chains[1..], row)
    else [chains[0]] + NotOlder(chains[1..], row)
  }

  lemma {:induction false} NoneOlder(chains: seq<ChainRow>, row: ChainRow)
    requires forall i :: 0 <= i < |chains| ==> !Less(ChainKey(chains[i]), ChainKey(row))
    ensures NotOlder(chains, row) == ChainsWithout(chains, {row.chain.id})
  {
    if chains != [] { NoneOlder(chains[1..], row); }
  }

  /** The upserted row stands in front of exactly the chains that are not older. */
  lemma {:induction false} UpsertSplits(chains: seq<ChainRow>, row: ChainRow) returns (i: nat)
    requires Sorted(chains, ChainKey)
    ensures i < |Upserted(chains, row)| && Upserted(chains, row)[i..] == [row] + NotOlder(chains, row)
  {
    i := 0;
    if chains != [] {
      if chains[0].chain.id == row.chain.id {
        i := UpsertSplits(chains[1..], row);
      } else if Less(ChainKey(chains[0]), ChainKey(row)) {
        i := UpsertSplits(chains[1..], row);
        assert ([chains[0]] + ChainsWithout(chains[1..], {row.chain.id}))[1..] == ChainsWithout(chains[1..], {row.chain.id});
        assert Upserted(chains, row) == [chains[0]] + Upserted(chains[1..], row);
        i := i + 1;
      } else {
        forall j | 0 <= j < |chains| ensures !Less(ChainKey(chains[j]), ChainKey(row)) {
          if j > 0 { LessTransitive(ChainKey(row), ChainKey(chains[0]), ChainKey(chains[j])); }
        }
        NoneOlder(chains, row);
      }
    }
  }

  lemma {:induction false} TotalShrinks(chains: seq<ChainRow>, k: nat)
    requires k <= |chains|
    ensures Total(chains[k..]) <= Total(chains)
  {
    if k > 0 {
      TotalShrinks(chains[1..], k - 1);
      assert chains[k..] == chains[1..][k - 1..];
    } else {
      assert chains[0..] == chains;
    }
  }

  /** The saved chain together with the chains that are not older fits the store. */
  predicate HasRoom(db: Db, rec: TraceRecord, max: Limits) {
    var rest := NotOlder(db.chains, ChainRow(rec.chain, RootText(rec.steps)));
    1 + |rest| <= max.chains && |rec.steps| + Total(rest) <= max.steps
  }

  lemma PrunedHas(all: seq<ChainRow>, k: nat, i: nat)
    requires DistinctChains(all) && k <= |all| && i < |all|
    ensures ChainAt(all[k..], all[i].chain.id).Some? <==> k <= i
  {
    if k <= i {
      assert all[k..][i - k] == all[i];
      ChainIsAt(all[k..], i - k);
    } else {
      ChainAtFacts(all[k..], all[i].chain.id);
    }
  }

  /**
   * A save that reports success leaves its record in the store if and only if the record and the chains
   * that are not older than it fit both limits together.  Otherwise the save evicts what it saved.
   */
  lemma KeptExactly(db: Db, rec: TraceRecord, max: Limits)
    requires Inv(db) && Ready(rec) && Saved(db, rec, max).Some?
    ensures ChainAt(Saved(db, rec, max).value.chains, rec.chain.id).Some? <==> HasRoom(db, rec, max)
  {
    var all, row := Written(db, rec).chains, ChainRow(rec.chain, RootText(rec.steps));
    var i := UpsertSplits(db.chains, row);
    WrittenChains(db, rec);
    PrunedChains(Written(db, rec), max);
    RoomIsFit(db, rec, max, i);
    ShortestPrefix(all, max);
    var k := Evictions(all, |all|, Total(all), max);
    PrunedHas(all, k, i);
    hide Written, Saved, Pruned, Fit, HasRoom, Evictions, Total, Inv, Ready;
    if k <= i { FitLater(all, k, i, max); }
  }

  lemma RoomIsFit(db: Db, rec: TraceRecord, max: Limits, i: nat)
    requires Ready(rec)
    requires var all, row := Written(db, rec).chains, ChainRow(rec.chain, RootText(rec.steps));
             i < |all| && all[i..] == [row] + NotOlder(db.chains, row)
    ensures HasRoom(db, rec, max) <==> Fit(Written(db, rec).chains, i, max)
    ensures Written(db, rec).chains[i].chain == rec.chain
  {
    var all, row := Written(db, rec).chains, ChainRow(rec.chain, RootText(rec.steps));
    assert all[i] == all[i..][0] == row && all[i..][1..] == NotOlder(db.chains, row);
  }

  lemma FitLater(order: seq<ChainRow>, k: nat, i: nat, max: Limits)
    requires k <= i <= |order| && Fit(order, k, max)
    ensures Fit(order, i, max)
  {
    TotalShrinks(order[k..], i - k);
    assert order[k..][i - k..] == order[i..];
  }

  /** A record with more steps than the store may hold evicts itself. */
  lemma OversizedEvictsItself(db: Db, rec: TraceRecord, max: Limits)
    requires Inv(db) && Ready(rec) && Saved(db, rec, max).Some? && |rec.steps| > max.steps
    ensures ChainAt(Saved(db, rec, max).value.chains, rec.chain.id).None?
  {
    KeptExactly(db, rec, max);
  }

  /** So does a new record, however small, that is older than every chain of a store that is full. */
  lemma OldestEvictsItself(db: Db, rec: TraceRecord, max: Limits)
    requires Inv(db) && Ready(rec) && Saved(db, rec, max).Some?
    requires |db.chains| >= max.chains || |db.steps| + |rec.steps| > max.steps
    requires forall i :: 0 <= i < |db.chains| ==> rec.chain.startedAt < db.chains[i].chain.startedAt
    requires rec.chain.id !in Ids(db.chains)
    ensures ChainAt(Saved(db, rec, max).value.chains, rec.chain.id).None?
  {
    KeptExactly(db, rec, max);
    NoneOlder(db.chains, ChainRow(rec.chain, RootText(rec.steps)));
    forall i | 0 <= i < |db.chains| ensures db.chains[i].chain.id !in {rec.chain.id} { IdsHas(db.chains, i); }
    KeepAll(db.chains, {rec.chain.id});
    TotalIsSize(db.chains, db.steps);
  }

  // ---------------------------------------------------------------------------------------------
  // Reading back
  // ---------------------------------------------------------------------------------------------

  function StoredStep(s: Step): Step {
    s.(body := Body(StoredText(s.body.payload), StoredText(s.body.before), StoredText(s.body.after)))
  }

  function StoredSteps(steps: seq<Step>): (r: seq<Step>)
    ensures |r| == |steps| && forall i :: 0 <= i < |steps| ==> r[i] == StoredStep(steps[i])
  {
    if steps == [] then [] else [StoredStep(steps[0])] + StoredSteps(steps[1..])
  }

  /** The record with every JSON text in its stored form. */
  function AsStored(rec: TraceRecord): TraceRecord {
    TraceRecord(rec.chain, StoredSteps(rec.steps))
  }

  lemma ShownNew(steps: seq<Step>)
    ensures ShownAll(RootText(steps), NewRows(steps, |steps|)) == StoredSteps(steps)
  {
    var shown := ShownAll(RootText(steps), NewRows(steps, |steps|));
    forall i | 0 <= i < |steps| ensures shown[i] == StoredStep(steps[i]) { SharingIsLossless(steps, i); }
  }

  lemma ReadAfterPrune(db: Db, max: Limits, id: string)
    requires Inv(db) && ChainAt(Pruned(db, max).chains, id).Some?
    ensures Read(Pruned(db, max), id) == Read(db, id)
  {
    ChainAtWithout(db.chains, Evicted(db.chains, max), id);
    RowsWithout(db.steps, Evicted(db.chains, max), id);
  }

  /**
   * After a save, reading a chain that was not evicted gives, for the saved chain, the record with its
   * steps in the same order and every JSON text byte for byte its stored form; and for every other chain
   * what it gave before.
   */
  lemma ReadAfterSave(db: Db, rec: TraceRecord, max: Limits, id: string)
    requires Inv(db) && Ready(rec) && Saved(db, rec, max).Some? && ChainAt(Saved(db, rec, max).value.chains, id).Some?
    ensures Read(Saved(db, rec, max).value, id) == if id == rec.chain.id then Some(AsStored(rec)) else Read(db, id)
  {
    WrittenKeepsInv(db, rec);
    ReadAfterPrune(Written(db, rec), max, id);
    WrittenRows(db, rec, id);
    WrittenChains(db, rec);
    ChainAtWithout(Written(db, rec).chains, Evicted(Written(db, rec).chains, max), id);
    if id == rec.chain.id {
      NewRowsAreGood(rec);
      SortSorted(NewRows(rec.steps, |rec.steps|), RowKey);
      ShownNew(rec.steps);
    }
  }

  // ---------------------------------------------------------------------------------------------
  // Whole runs
  // ---------------------------------------------------------------------------------------------

  datatype Save = Save(rec: TraceRecord, o: Oracle)

  predicate AllFit(saves: seq<Save>) {
    forall i :: 0 <= i < |saves| ==> Fits(saves[i].o, saves[i].rec)
  }

  /** A save that is rejected or fails changes nothing. */
  ghost function AfterSave(db: Db, s: Save, max: Limits): Db
    requires Fits(s.o, s.rec)
  {
    var n := Normal(s.rec, s.o);
    if n.Accepted? && Saved(db, n.rec, max).Some? then Saved(db, n.rec, max).value else db
  }

  ghost function Run(saves: seq<Save>, max: Limits): Db
    requires AllFit(saves)
  {
    if saves == [] then Db([], []) else AfterSave(Run(saves[..|saves| - 1], max), saves[|saves| - 1], max)
  }

  /** The record that the last successful save of this chain stored. */
  ghost function LastSaved(saves: seq<Save>, max: Limits, id: string): Option<TraceRecord>
    requires AllFit(saves)
  {
    if saves == [] then None
    else
      var front, s := saves[..|saves| - 1], saves[|saves| - 1];
      var n := Normal(s.rec, s.o);
      if n.Accepted? && n.rec.chain.id == id && Saved(Run(front, max), n.rec, max).Some? then Some(n.rec)
      else LastSaved(front, max, id)
  }

  lemma NormalIsReady(rec: TraceRecord, o: Oracle)
    requires Fits(o, rec) && Normal(rec, o).Accepted?
    ensures Ready(Normal(rec, o).rec)
  {
    NormalFacts(rec, o);
    var r := Normal(rec, o).rec;
    assert forall i :: 0 <= i < |r.steps| ==> r.steps[i] in r.steps;
  }

  /**
   * After any run of saves: every chain's step count is the number of its steps, every step's chain
   * exists, step ids are unique, each chain's steps are in read order with every parent an earlier step
   * of the same chain; and both limits hold.
   */
  lemma {:induction false} RunKeepsInv(saves: seq<Save>, max: Limits)
    requires AllFit(saves)
    ensures Inv(Run(saves, max)) && Within(Run(saves, max), max)
  {
    if saves != [] {
      var front, s := saves[..|saves| - 1], saves[|saves| - 1];
      RunKeepsInv(front, max);
      if Normal(s.rec, s.o).Accepted? && Saved(Run(front, max), Normal(s.rec, s.o).rec, max).Some? {
        NormalIsReady(s.rec, s.o);
        SavedKeepsInv(Run(front, max), Normal(s.rec, s.o).rec, max);
      }
    }
  }

  /**
   * Round trip over any run: a chain that is present reads back as the record last saved for it, and one
   * that was never saved is not present.
   */
  lemma {:induction false} ReadsBackLastSaved(saves: seq<Save>, max: Limits, id: string)
    requires AllFit(saves) && ChainAt(Run(saves, max).chains, id).Some?
    ensures LastSaved(saves, max, id).Some?
    ensures Read(Run(saves, max), id) == Some(AsStored(LastSaved(saves, max, id).value))
  {
    if saves != [] {
      var front, s := saves[..|saves| - 1], saves[|saves| - 1];
      var db := Run(front, max);
      var n := Normal(s.rec, s.o);
      RunKeepsInv(front, max);
      if n.Accepted? && Saved(db, n.rec, max).Some? {
        NormalIsReady(s.rec, s.o);
        ReadAfterSave(db, n.rec, max, id);
        if id != n.rec.chain.id {
          OldChainStays(db, n.rec, max, id);
          ReadsBackLastSaved(front, max, id);
        }
      } else {
        ReadsBackLastSaved(front, max, id);
      }
    }
  }

  lemma OldChainStays(db: Db, rec: TraceRecord, max: Limits, id: string)
    requires Inv(db) && Saved(db, rec, max).Some? && id != rec.chain.id
    requires ChainAt(Saved(db, rec, max).value.chains, id).Some?
    ensures ChainAt(db.chains, id).Some?
  {
    WrittenChains(db, rec);
    ChainAtWithout(Written(db, rec).chains, Evicted(Written(db, rec).chains, max), id);
  }

  // ---------------------------------------------------------------------------------------------
  // The store
  // ---------------------------------------------------------------------------------------------

  datatype SaveError = NotNormal(error: NormalizeError) | DuplicateStep

  /** The primary key of the steps table, and its reference to an earlier step of the chain. */
  predicate Insertable(steps: seq<StepRow>, r: StepRow) {
    forall i :: 0 <= i < |steps| ==> steps[i].step.id != r.step.id
  }

  predicate HasParent(steps: seq<StepRow>, r: StepRow) {
    r.step.parent == "" || exists i :: 0 <= i < |steps| && steps[i].step.chainId == r.step.chainId && steps[i].step.id == r.step.parent
  }

  class TraceStore {
    var db: Db
    const maxChains: int
    const maxSteps: int

    constructor (maxChains: int, maxSteps: int)
      ensures db == Db([], []) && this.maxChains == maxChains && this.maxSteps == maxSteps
    {
      db, this.maxChains, this.maxSteps := Db([], []), maxChains, maxSteps;
    }

    /** Non-positive settings select the defaults. */
    function TraceLimits(): Limits {
      Limits(if maxChains <= 0 then DEFAULT_MAX_CHAINS else maxChains, if maxSteps <= 0 then DEFAULT_MAX_STEPS else maxSteps)
    }

    /**
     * Saves a record, or changes nothing.  It fails only if the record cannot be normalised or one of its
     * step ids is already taken.
     */
    method SaveChain(rec: TraceRecord, o: Oracle) returns (err: Option<SaveError>)
      requires Inv(db) && Fits(o, rec)
      modifies this
      ensures Inv(db)
      ensures err.None? <==> Normal(rec, o).Accepted? && Saved(old(db), Normal(rec, o).rec, TraceLimits()).Some?
      ensures err.None? ==> db == Saved(old(db), Normal(rec, o).rec, TraceLimits()).value && Within(db, TraceLimits())
      ensures err.Some? ==> db == old(db)
      ensures err.Some? && err.value.NotNormal? <==> Normal(rec, o).Rejected?
    {
      var n := Normalize(rec, o);
      if n.Rejected? { return Some(NotNormal(n.error)); }
      NormalIsReady(rec, o);
      var chain, steps := n.rec.chain, n.rec.steps;
      var root, plan := PlanRootDedup(steps);
      var before := db;
      db := db.(steps := StepsWithout(db.steps, {chain.id}));
      db := db.(chains := Upserted(db.chains, ChainRow(chain, root)));
      WithoutMembers(before.steps, {chain.id});
      var failure, inserted := InsertSteps(before, db.steps, n.rec, plan);
      if failure.Some? {
        db := before;
        return failure;
      }
      db := db.(steps := inserted);
      assert db == Written(before, n.rec);
      SavedKeepsInv(before, n.rec, TraceLimits());
      var gone := OldestChains(db.chains, TraceLimits());
      db := Db(ChainsWithout(db.chains, gone), StepsWithout(db.steps, gone));
      err := None;
    }

    method GetChainRecord(id: string) returns (rec: Option<TraceRecord>)
      ensures rec == Read(db, id)
    {
      var c := ChainAt(db.chains, id);
      if c.None? { return None; }
      var steps := CollectSteps(c.value.root, Sort(Rows(db.steps, id), RowKey));
      rec := Some(TraceRecord(c.value.chain.(stepCount := |steps|), steps));
    }
  }

  method CollectSteps(root: string, rows: seq<StepRow>) returns (steps: seq<Step>)
    ensures steps == ShownAll(root, rows)
  {
    steps := [];
    for i := 0 to |rows|
      invariant |steps| == i && forall k :: 0 <= k < i ==> steps[k] == Shown(root, rows[k])
    {
      steps := steps + [Shown(root, rows[i])];
    }
  }

  lemma Inserted(base: seq<StepRow>, rec: TraceRecord, i: nat)
    requires i < |rec.steps| && DistinctSteps(base + NewRows(rec.steps, i))
    requires Insertable(base + NewRows(rec.steps, i), NewRow(rec.steps, i))
    ensures base + NewRows(rec.steps, i + 1) == base + NewRows(rec.steps, i) + [NewRow(rec.steps, i)]
    ensures DistinctSteps(base + NewRows(rec.steps, i + 1))
  {
  }

  /** Inserts the steps one by one, as the plan stores them; stops at the first key that is taken. */
  method InsertSteps(ghost db: Db, base: seq<StepRow>, rec: TraceRecord, plan: seq<Stored>)
    returns (failure: Option<SaveError>, steps: seq<StepRow>)
    requires Ready(rec) && base == StepsWithout(db.steps, {rec.chain.id}) && DistinctSteps(base)
    requires |plan| == |rec.steps| && forall i :: 0 <= i < |plan| ==> plan[i] == StoredPayload(rec.steps, i)
    ensures failure.None? ==> steps == Written(db, rec).steps && DistinctSteps(steps)
    ensures failure.Some? ==> failure == Some(DuplicateStep) && !DistinctSteps(Written(db, rec).steps)
  {
    steps := base;
    for i := 0 to |rec.steps|
      invariant steps == base + NewRows(rec.steps, i) && DistinctSteps(steps)
    {
      var row := PlannedRow(rec.steps[i], plan[i]);
      if !Insertable(steps, row) {
        Clash(db, rec, i);
        return Some(DuplicateStep), steps;
      }
      ParentInserted(base, rec, i);
      Inserted(base, rec, i);
      steps := steps + [row];
    }
    failure := None;
  }

  lemma ClashAt(part: seq<StepRow>, row: StepRow, rest: seq<StepRow>)
    requires !Insertable(part, row)
    ensures !DistinctSteps(part + [row] + rest)
  {
    var all := part + [row] + rest;
    var k :| 0 <= k < |part| && part[k].step.id == row.step.id;
    assert all[k] == part[k] && all[|part|] == row;
  }

  lemma {:induction false} NewRowsSplit(steps: seq<Step>, i: nat, n: nat)
    requires i < n <= |steps|
    ensures NewRows(steps, n) == NewRows(steps, i) + [NewRow(steps, i)] + NewRows(steps, n)[i + 1..]
  {
    var a, b := NewRows(steps, n), NewRows(steps, i);
    assert a[..i] == b;
  }

  lemma Clash(db: Db, rec: TraceRecord, i: nat)
    requires i < |rec.steps|
    requires !Insertable(StepsWithout(db.steps, {rec.chain.id}) + NewRows(rec.steps, i), NewRow(rec.steps, i))
    ensures !DistinctSteps(Written(db, rec).steps)
  {
    var base, rows := StepsWithout(db.steps, {rec.chain.id}), NewRows(rec.steps, |rec.steps|);
    NewRowsSplit(rec.steps, i, |rec.steps|);
    ClashAt(base + NewRows(rec.steps, i), NewRow(rec.steps, i), rows[i + 1..]);
    Regroup(base, NewRows(rec.steps, i), [NewRow(rec.steps, i)], rows[i + 1..]);
  }

  /** When a step is inserted its parent row is already there, so the table's reference never fails. */
  lemma ParentInserted(base: seq<StepRow>, rec: TraceRecord, i: nat)
    requires Ready(rec) && i < |rec.steps|
    ensures HasParent(base + NewRows(rec.steps, i), NewRow(rec.steps, i))
  {
    var part := base + NewRows(rec.steps, i);
    if rec.steps[i].parent != "" {
      var j :| 0 <= j < i && rec.steps[j].id == rec.steps[i].parent;
      assert part[|base| + j] == NewRow(rec.steps, j);
    }
  }

  method SumSteps(order: seq<ChainRow>) returns (total: nat)
    ensures total == Total(order)
  {
    total := 0;
    for i := 0 to |order|
      invariant total + Total(order[i..]) == Total(order)
    {
      assert order[i..][1..] == order[i + 1..];
      total := total + order[i].chain.stepCount;
    }
    assert order[|order|..] == [];
  }

  /** The loop over the chains, oldest first, that decides which go. */
  method OldestChains(chains: seq<ChainRow>, max: Limits) returns (gone: set<string>)
    ensures gone == Evicted(chains, max)
  {
    var order := Sort(chains, ChainKey);
    var total := SumSteps(order);
    var totalChains: int, totalSteps: int := |order|, total;
    gone := {};
    var i := 0;
    assert order[0..] == order;
    while i < |order| && !(totalChains <= max.chains && totalSteps <= max.steps)
      invariant 0 <= i <= |order| && gone == Ids(order[..i])
      invariant Evictions(order, |order|, total, max) == i + Evictions(order[i..], totalChains, totalSteps, max)
      decreases |order| - i
    {
      assert order[i..][1..] == order[i + 1..];
      IdsAppend(order[..i], order[i]);
      assert order[..i + 1] == order[..i] + [order[i]];
      gone := gone + {order[i].chain.id};
      totalChains := totalChains - 1;
      totalSteps := totalSteps - order[i].chain.stepCount;
      i := i + 1;
    }
  }

  lemma {:induction false} IdsAppend(chains: seq<ChainRow>, c: ChainRow)
    ensures Ids(chains + [c]) == Ids(chains) + {c.chain.id}
  {
    if chains == [] {
      assert chains + [c] == [c];
    } else {
      assert (chains + [c])[1..] == chains[1..] + [c];
      IdsAppend(chains[1..], c);
    }
  }
}
