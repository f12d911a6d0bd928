/** Trace records, their normalisation, and the sharing of the root payload. */
module TraceRecords {
  import opened Basics
  import opened Sorting

  datatype Place = Place(session: string, pane: string)
  datatype Root = Root(agentType: string, event: string, reason: string)
  datatype Verdict = Verdict(kind: string, decision: string, reason: string)

  datatype Chain = Chain(id: string, startedAt: int, completedAt: int, status: string, reason: string, place: Place,
                         root: Root, latest: Verdict, stepCount: nat)

  /** JSON texts; empty when absent. */
  datatype Body = Body(payload: string, before: string, after: string)

  datatype Step = Step(id: string, chainId: string, parent: string, seqNo: int, createdAt: int, place: Place,
                       agentType: string, event: string, verdict: Verdict, frame: string, parentFrame: string, body: Body)

  datatype TraceRecord = TraceRecord(chain: Chain, steps: seq<Step>)

  /** Fresh ids and clock readings, one pair for each step, in case it brings none. */
  datatype Oracle = Oracle(chainId: string, ids: seq<string>, times: seq<int>, now: int)

  predicate Fits(o: Oracle, rec: TraceRecord) {
    |o.ids| == |rec.steps| == |o.times|
  }

  function StepKey(s: Step): Key { Key(s.seqNo, s.createdAt, s.id) }

  function Or(given: string, otherwise: string): string {
    if given != "" then given else otherwise
  }

  // ---------------------------------------------------------------------------------------------
  // Filling in what is missing
  // ---------------------------------------------------------------------------------------------

  function FilledStep(chain: Chain, s: Step, i: nat, id: string, time: int): Step {
    s.(id := Or(s.id, id), chainId := Or(s.chainId, chain.id), seqNo := if s.seqNo == 0 then i + 1 else s.seqNo,
       place := Place(Or(s.place.session, chain.place.session), Or(s.place.pane, chain.place.pane)),
       agentType := Or(s.agentType, chain.root.agentType), event := Or(s.event, chain.root.event),
       createdAt := if s.createdAt == 0 then time + i else s.createdAt)
  }

  /** A chain without a place takes the step's. */
  function Placed(chain: Chain, s: Step): Chain {
    chain.(place := Place(Or(chain.place.session, s.place.session), Or(chain.place.pane, s.place.pane)))
  }

  function Named(rec: TraceRecord, o: Oracle): Chain {
    rec.chain.(id := Or(rec.chain.id, o.chainId))
  }

  /** The chain and the steps after the first `n` steps have been filled in, or None at a foreign chain id. */
  function Filled(rec: TraceRecord, o: Oracle, n: nat): (r: Option<TraceRecord>)
    requires Fits(o, rec) && n <= |rec.steps|
    ensures r.Some? ==> |r.value.steps| == n
  {
    if n == 0 then Some(TraceRecord(Named(rec, o), []))
    else
      var before := Filled(rec, o, n - 1);
      if before.None? then None
      else
        var chain := before.value.chain;
        var s := FilledStep(chain, rec.steps[n - 1], n - 1, o.ids[n - 1], o.times[n - 1]);
        if s.chainId != chain.id then None else Some(TraceRecord(Placed(chain, s), before.value.steps + [s]))
  }

  /** Every parent that is named comes before the step that names it. */
  predicate ParentsFirst(steps: seq<Step>) {
    forall i :: 0 <= i < |steps| && steps[i].parent != "" ==> exists j :: 0 <= j < i && steps[j].id == steps[i].parent
  }

  function Finished(chain: Chain, steps: seq<Step>, now: int): Chain {
    if steps == [] then
      var start := if chain.startedAt == 0 then now else chain.startedAt;
      chain.(startedAt := start, completedAt := if chain.completedAt == 0 then start else chain.completedAt, stepCount := 0)
    else
      var first, last := steps[0], steps[|steps| - 1];
      var start := if chain.startedAt == 0 then first.createdAt else chain.startedAt;
      var end := if chain.completedAt == 0 then last.createdAt else chain.completedAt;
      chain.(startedAt := start, completedAt := if end == 0 then start else end,
             place := Place(Or(chain.place.session, first.place.session), Or(chain.place.pane, first.place.pane)),
             root := Root(Or(chain.root.agentType, first.agentType), Or(chain.root.event, first.event),
                          Or(chain.root.reason, first.verdict.reason)),
             latest := last.verdict, stepCount := |steps|)
  }

  datatype NormalizeError = WrongChain | MissingParent

  datatype Normalized = Accepted(rec: TraceRecord) | Rejected(error: NormalizeError)

  function Normal(rec: TraceRecord, o: Oracle): Normalized
    requires Fits(o, rec)
  {
    var filled := Filled(rec, o, |rec.steps|);
    if filled.None? then Rejected(WrongChain)
    else
      var steps := Sort(filled.value.steps, StepKey);
      if !ParentsFirst(steps) then Rejected(MissingParent)
      else Accepted(TraceRecord(Finished(filled.value.chain, steps, o.now), steps))
  }

  method FillStep(chain0: Chain, given: Step, i: nat, id: string, time: int) returns (s: Step, chain: Chain)
    ensures s == FilledStep(chain0, given, i, id, time)
    ensures s.chainId == chain0.id ==> chain == Placed(chain0, s)
  {
    var stepId, chainId, seqNo, createdAt := given.id, given.chainId, given.seqNo, given.createdAt;
    var here, there := given.place, chain0.place;
    var agentType, event := given.agentType, given.event;
    if stepId == "" { stepId := id; }
    if chainId == "" { chainId := chain0.id; }
    if seqNo == 0 { seqNo := i + 1; }
    if here.session == "" { here := here.(session := there.session); }
    if there.session == "" { there := there.(session := here.session); }
    if here.pane == "" { here := here.(pane := there.pane); }
    if there.pane == "" { there := there.(pane := here.pane); }
    if agentType == "" { agentType := chain0.root.agentType; }
    if event == "" { event := chain0.root.event; }
    if createdAt == 0 { createdAt := time + i; }
    s := given.(id := stepId, chainId := chainId, seqNo := seqNo, place := here, agentType := agentType, event := event,
                createdAt := createdAt);
    chain := chain0.(place := there);
  }

  method FillSteps(rec: TraceRecord, o: Oracle) returns (r: Option<TraceRecord>)
    requires Fits(o, rec)
    ensures r == Filled(rec, o, |rec.steps|)
  {
    var chain := rec.chain;
    if chain.id == "" { chain := chain.(id := o.chainId); }
    var steps: seq<Step> := [];
    for i := 0 to |rec.steps|
      invariant Filled(rec, o, i) == Some(TraceRecord(chain, steps))
    {
      var s, next := FillStep(chain, rec.steps[i], i, o.ids[i], o.times[i]);
      if s.chainId != chain.id { NoneStays(rec, o, i + 1, |rec.steps|); return None; }
      chain, steps := next, steps + [s];
    }
    r := Some(TraceRecord(chain, steps));
  }

  lemma {:induction false} NoneStays(rec: TraceRecord, o: Oracle, n: nat, m: nat)
    requires Fits(o, rec) && n <= m <= |rec.steps| && Filled(rec, o, n).None?
    ensures Filled(rec, o, m).None?
  {
    if n < m { NoneStays(rec, o, n, m - 1); }
  }

  method CheckParents(steps: seq<Step>) returns (ok: bool)
    ensures ok <==> ParentsFirst(steps)
  {
    var seen: set<string> := {};
    for i := 0 to |steps|
      invariant forall x :: x in seen <==> exists j :: 0 <= j < i && steps[j].id == x
      invariant forall k :: 0 <= k < i && steps[k].parent != "" ==> exists j :: 0 <= j < k && steps[j].id == steps[k].parent
    {
      if steps[i].parent != "" && steps[i].parent !in seen { return false; }
      seen := seen + {steps[i].id};
    }
    ok := true;
  }

  method Normalize(rec: TraceRecord, o: Oracle) returns (r: Normalized)
    requires Fits(o, rec)
    ensures r == Normal(rec, o)
  {
    var filled := FillSteps(rec, o);
    if filled.None? { return Rejected(WrongChain); }
    var steps := Sort(filled.value.steps, StepKey);
    var ok := CheckParents(steps);
    if !ok { return Rejected(MissingParent); }
    r := Accepted(TraceRecord(Finished(filled.value.chain, steps, o.now), steps));
  }

  /** What a step brought is kept; only what it left out is filled in. */
  predicate Keeps(given: Step, s: Step) {
    && (given.id != "" ==> s.id == given.id) && (given.seqNo != 0 ==> s.seqNo == given.seqNo)
    && (given.createdAt != 0 ==> s.createdAt == given.createdAt)
    && (given.place.session != "" ==> s.place.session == given.place.session)
    && (given.place.pane != "" ==> s.place.pane == given.place.pane)
    && (given.agentType != "" ==> s.agentType == given.agentType) && (given.event != "" ==> s.event == given.event)
    && s.parent == given.parent && s.verdict == given.verdict && s.frame == given.frame
    && s.parentFrame == given.parentFrame && s.body == given.body && s.seqNo != 0
  }

  lemma {:induction false} FilledFacts(rec: TraceRecord, o: Oracle, n: nat)
    requires Fits(o, rec) && n <= |rec.steps| && Filled(rec, o, n).Some?
    ensures var r := Filled(rec, o, n).value;
            && r.chain.id == Or(rec.chain.id, o.chainId)
            && forall i :: 0 <= i < n ==> Keeps(rec.steps[i], r.steps[i]) && r.steps[i].chainId == r.chain.id
  {
    if n > 0 { FilledFacts(rec, o, n - 1); }
  }

  /**
   * An accepted record: its steps are a sorted permutation of the given ones, each with everything it
   * brought, all of one chain, every parent before its child, and the step count is right.
   */
  lemma NormalFacts(rec: TraceRecord, o: Oracle)
    requires Fits(o, rec) && Normal(rec, o).Accepted?
    ensures var r, filled := Normal(rec, o).rec, Filled(rec, o, |rec.steps|);
            && filled.Some? && multiset(r.steps) == multiset(filled.value.steps)
            && (forall i :: 0 <= i < |rec.steps| ==> Keeps(rec.steps[i], filled.value.steps[i]))
            && Sorted(r.steps, StepKey) && ParentsFirst(r.steps)
            && r.chain.id == Or(rec.chain.id, o.chainId)
            && (forall s :: s in r.steps ==> s.chainId == r.chain.id)
            && r.chain.stepCount == |r.steps| == |rec.steps|
  {
    var filled := Filled(rec, o, |rec.steps|).value;
    var r := Normal(rec, o).rec;
    FilledFacts(rec, o, |rec.steps|);
    SortFacts(filled.steps, StepKey);
    assert |multiset(r.steps)| == |r.steps| && |multiset(filled.steps)| == |filled.steps|;
    forall s | s in r.steps ensures s.chainId == r.chain.id {
      assert s in multiset(filled.steps);
    }
  }

  // ---------------------------------------------------------------------------------------------
  // What is filled in
  // ---------------------------------------------------------------------------------------------

  /** The first text that is not empty, if there is one. */
  function FirstText(texts: seq<string>): string {
    if texts == [] then ""
    else
      var before := FirstText(texts[..|texts| - 1]);
      if before != "" then before else texts[|texts| - 1]
  }

  lemma {:induction false} FirstTextIs(texts: seq<string>) returns (i: nat)
    ensures i <= |texts| && forall j :: 0 <= j < i ==> texts[j] == ""
    ensures if i == |texts| then FirstText(texts) == "" else texts[i] != "" && FirstText(texts) == texts[i]
  {
    i := 0;
    if texts != [] { i := FirstTextIs(texts[..|texts| - 1]); }
    if i < |texts| && texts[i] == "" { i := i + 1; }
  }

  function Sessions(steps: seq<Step>): seq<string> {
    seq(|steps|, i requires 0 <= i < |steps| => steps[i].place.session)
  }

  function Panes(steps: seq<Step>): seq<string> {
    seq(|steps|, i requires 0 <= i < |steps| => steps[i].place.pane)
  }

  /** A place that was not given: the chain's, or else that of the first of these steps to bring one. */
  function PlaceAfter(rec: TraceRecord, n: nat): Place
    requires n <= |rec.steps|
  {
    var c := rec.chain.place;
    Place(if c.session != "" then c.session else FirstText(Sessions(rec.steps[..n])),
          if c.pane != "" then c.pane else FirstText(Panes(rec.steps[..n])))
  }

  /** What step `i` gets for each thing that it left out. */
  predicate FillsIn(rec: TraceRecord, o: Oracle, i: nat, s: Step)
    requires Fits(o, rec) && i < |rec.steps|
  {
    var given, place := rec.steps[i], PlaceAfter(rec, i);
    && (given.id == "" ==> s.id == o.ids[i]) && (given.seqNo == 0 ==> s.seqNo == i + 1)
    && (given.createdAt == 0 ==> s.createdAt == o.times[i] + i)
    && (given.place.session == "" ==> s.place.session == place.session)
    && (given.place.pane == "" ==> s.place.pane == place.pane)
    && (given.agentType == "" ==> s.agentType == rec.chain.root.agentType)
    && (given.event == "" ==> s.event == rec.chain.root.event)
  }

  lemma PlaceNext(rec: TraceRecord, n: nat)
    requires n < |rec.steps|
    ensures var was, given, now := PlaceAfter(rec, n), rec.steps[n].place, PlaceAfter(rec, n + 1);
            && now.session == (if was.session != "" then was.session else given.session)
            && now.pane == (if was.pane != "" then was.pane else given.pane)
  {
    var a, b := rec.steps[..n], rec.steps[..n + 1];
    assert b == a + [rec.steps[n]];
    assert Sessions(b)[..n] == Sessions(a) && Panes(b)[..n] == Panes(a);
  }

  lemma StepFilledIn(rec: TraceRecord, o: Oracle, n: nat, chain: Chain)
    requires Fits(o, rec) && n < |rec.steps|
    requires chain == rec.chain.(id := chain.id, place := PlaceAfter(rec, n))
    ensures var s := FilledStep(chain, rec.steps[n], n, o.ids[n], o.times[n]);
            && FillsIn(rec, o, n, s) && Placed(chain, s) == rec.chain.(id := chain.id, place := PlaceAfter(rec, n + 1))
            && s.chainId == Or(rec.steps[n].chainId, chain.id)
  {
    PlaceNext(rec, n);
    hide PlaceAfter;
  }

  /** The chain as the steps left it, and every step with what it was given for what it left out. */
  lemma {:induction false} FilledIn(rec: TraceRecord, o: Oracle, n: nat)
    requires Fits(o, rec) && n <= |rec.steps| && Filled(rec, o, n).Some?
    ensures var r := Filled(rec, o, n).value;
            && r.chain == rec.chain.(id := Or(rec.chain.id, o.chainId), place := PlaceAfter(rec, n))
            && forall i :: 0 <= i < n ==> FillsIn(rec, o, i, r.steps[i])
  {
    if n > 0 { FilledIn(rec, o, n - 1); } else { assert rec.steps[..0] == []; }
    hide FillsIn, FilledStep, Placed, Or;
    if n > 0 { StepFilledIn(rec, o, n - 1, Filled(rec, o, n - 1).value.chain); } else { NothingAfter(rec); }
  }

  lemma NothingAfter(rec: TraceRecord)
    ensures PlaceAfter(rec, 0) == rec.chain.place
  {
    assert rec.steps[..0] == [];
  }

  /** The step names a chain other than the record's. */
  predicate Foreign(rec: TraceRecord, o: Oracle, i: nat)
    requires i < |rec.steps|
  {
    rec.steps[i].chainId != "" && rec.steps[i].chainId != if rec.chain.id != "" then rec.chain.id else o.chainId
  }

  /** A record is refused exactly when a step names another chain, or its parent does not come before it. */
  lemma RefusedIff(rec: TraceRecord, o: Oracle)
    requires Fits(o, rec)
    ensures Normal(rec, o) == Rejected(WrongChain) <==> exists i :: 0 <= i < |rec.steps| && Foreign(rec, o, i)
    ensures Normal(rec, o) == Rejected(MissingParent)
       <==> && !(exists i :: 0 <= i < |rec.steps| && Foreign(rec, o, i))
            && !ParentsFirst(Sort(Filled(rec, o, |rec.steps|).value.steps, StepKey))
  {
    StopsAtForeign(rec, o, |rec.steps|);
  }

  lemma {:induction false} StopsAtForeign(rec: TraceRecord, o: Oracle, n: nat)
    requires Fits(o, rec) && n <= |rec.steps|
    ensures Filled(rec, o, n).None? <==> exists i :: 0 <= i < n && Foreign(rec, o, i)
  {
    if n > 0 {
      StopsAtForeign(rec, o, n - 1);
      if Filled(rec, o, n - 1).Some? { FilledIn(rec, o, n - 1); }
    }
    hide FilledStep, Placed, PlaceAfter, FillsIn;
    if n > 0 && Filled(rec, o, n - 1).Some? {
      StepFilledIn(rec, o, n - 1, Filled(rec, o, n - 1).value.chain);
      assert Filled(rec, o, n).None? <==> Foreign(rec, o, n - 1);
    }
  }

  predicate Kept(given: string, got: string, otherwise: string) {
    got == if given != "" then given else otherwise
  }

  /**
   * The header of an accepted record.  What the chain brought is kept.  Of the steps in their sorted order,
   * the first gives a missing start and missing root, the last gives a missing end and the latest verdict;
   * a missing place is that of the first given step that brings one.  Without steps the clock gives both
   * times.
   */
  lemma HeaderFacts(rec: TraceRecord, o: Oracle)
    requires Fits(o, rec) && Normal(rec, o).Accepted?
    ensures var c, r := rec.chain, Normal(rec, o).rec;
            var h, n := r.chain, |r.steps|;
            && h.status == c.status && h.reason == c.reason
            && Kept(c.place.session, h.place.session, FirstText(Sessions(rec.steps)))
            && Kept(c.place.pane, h.place.pane, FirstText(Panes(rec.steps)))
            && (c.startedAt != 0 ==> h.startedAt == c.startedAt) && (c.completedAt != 0 ==> h.completedAt == c.completedAt)
            && (if n == 0 then
                  && h.root == c.root && h.latest == c.latest
                  && (c.startedAt == 0 ==> h.startedAt == o.now) && (c.completedAt == 0 ==> h.completedAt == h.startedAt)
                else
                  && (c.startedAt == 0 ==> h.startedAt == r.steps[0].createdAt)
                  && (c.completedAt == 0 ==>
                        h.completedAt == if r.steps[n - 1].createdAt != 0 then r.steps[n - 1].createdAt else h.startedAt)
                  && Kept(c.root.agentType, h.root.agentType, r.steps[0].agentType)
                  && Kept(c.root.event, h.root.event, r.steps[0].event)
                  && Kept(c.root.reason, h.root.reason, r.steps[0].verdict.reason)
                  && h.latest == r.steps[n - 1].verdict)
  {
    var r, filled := Normal(rec, o).rec, Filled(rec, o, |rec.steps|).value;
    FilledIn(rec, o, |rec.steps|);
    NormalFacts(rec, o);
    assert rec.steps[..|rec.steps|] == rec.steps;
    FirstHasNoPlace(rec, o);
    hide Filled, Normal, Sort, FirstText, Sessions, Panes, FillsIn, Finished, ParentsFirst, Keeps;
    NormalIs(rec, o);
    FinishedFacts(filled.chain, r.steps, o.now);
  }

  lemma FinishedFacts(c: Chain, steps: seq<Step>, now: int)
    ensures var h, n := Finished(c, steps, now), |steps|;
            && h.status == c.status && h.reason == c.reason && h.id == c.id
            && (c.startedAt != 0 ==> h.startedAt == c.startedAt) && (c.completedAt != 0 ==> h.completedAt == c.completedAt)
            && (if n == 0 then
                  && h.place == c.place && h.root == c.root && h.latest == c.latest
                  && (c.startedAt == 0 ==> h.startedAt == now) && (c.completedAt == 0 ==> h.completedAt == h.startedAt)
                else
                  && Kept(c.place.session, h.place.session, steps[0].place.session)
                  && Kept(c.place.pane, h.place.pane, steps[0].place.pane)
                  && (c.startedAt == 0 ==> h.startedAt == steps[0].createdAt)
                  && (c.completedAt == 0 ==> h.completedAt == if steps[n - 1].createdAt != 0 then steps[n - 1].createdAt else h.startedAt)
                  && Kept(c.root.agentType, h.root.agentType, steps[0].agentType)
                  && Kept(c.root.event, h.root.event, steps[0].event)
                  && Kept(c.root.reason, h.root.reason, steps[0].verdict.reason)
                  && h.latest == steps[n - 1].verdict)
  {
  }

  lemma NormalIs(rec: TraceRecord, o: Oracle)
    requires Fits(o, rec) && Normal(rec, o).Accepted?
    ensures Filled(rec, o, |rec.steps|).Some?
    ensures var r := Normal(rec, o).rec; r.chain == Finished(Filled(rec, o, |rec.steps|).value.chain, r.steps, o.now)
  {
  }

  lemma FirstHasNoPlace(rec: TraceRecord, o: Oracle)
    requires Fits(o, rec) && Normal(rec, o).Accepted?
    ensures var steps, place := Normal(rec, o).rec.steps, PlaceAfter(rec, |rec.steps|);
            steps != [] ==> (place.session == "" ==> steps[0].place.session == "") && (place.pane == "" ==> steps[0].place.pane == "")
  {
    var r, filled := Normal(rec, o).rec, Filled(rec, o, |rec.steps|).value;
    NormalFacts(rec, o);
    if r.steps != [] {
      assert r.steps[0] in multiset(filled.steps);
      var i :| 0 <= i < |filled.steps| && filled.steps[i] == r.steps[0];
      NoPlace(rec, o, i);
    }
  }

  /** Where nobody brought a place, no step has one. */
  lemma NoPlace(rec: TraceRecord, o: Oracle, i: nat)
    requires Fits(o, rec) && i < |rec.steps| && Filled(rec, o, |rec.steps|).Some?
    ensures var s, place := Filled(rec, o, |rec.steps|).value.steps[i], PlaceAfter(rec, |rec.steps|);
            (place.session == "" ==> s.place.session == "") && (place.pane == "" ==> s.place.pane == "")
  {
    FilledIn(rec, o, |rec.steps|);
    assert FillsIn(rec, o, i, Filled(rec, o, |rec.steps|).value.steps[i]);
    assert rec.steps[..|rec.steps|] == rec.steps;
    PlaceGrows(rec, i, |rec.steps|);
    var j := FirstTextIs(Sessions(rec.steps));
    var k := FirstTextIs(Panes(rec.steps));
    assert Sessions(rec.steps)[i] == rec.steps[i].place.session && Panes(rec.steps)[i] == rec.steps[i].place.pane;
    hide Filled, FirstText, Sessions, Panes;
  }

  lemma {:induction false} PlaceGrows(rec: TraceRecord, i: nat, n: nat)
    requires i <= n <= |rec.steps|
    ensures PlaceAfter(rec, n).session == "" ==> PlaceAfter(rec, i).session == ""
    ensures PlaceAfter(rec, n).pane == "" ==> PlaceAfter(rec, i).pane == ""
    decreases n
  {
    if i < n {
      PlaceNext(rec, n - 1);
      PlaceGrows(rec, i, n - 1);
    }
  }

  // ---------------------------------------------------------------------------------------------
  // Sharing the root payload
  // ---------------------------------------------------------------------------------------------

  /** The stored form of a JSON text. */
  function StoredText(raw: string): string {
    if raw == "" then "null" else raw
  }

  datatype Stored = Stored(payload: string, isRoot: bool)

  /** What the read query makes of a stored payload. */
  function Resolved(root: string, p: Stored): string {
    if p.isRoot then root else p.payload
  }

  function Matches(texts: seq<string>, text: string): nat {
    if texts == [] then 0 else Matches(texts[..|texts| - 1], text) + if texts[|texts| - 1] == text then 1 else 0
  }

  function Texts(steps: seq<Step>): (t: seq<string>)
    ensures |t| == |steps|
  {
    seq(|steps|, i requires 0 <= i < |steps| => StoredText(steps[i].body.payload))
  }

  /** Whether the first step's payload is shared by at least one other step. */
  predicate Shares(steps: seq<Step>) {
    steps != [] && Matches(Texts(steps), StoredText(steps[0].body.payload)) >= 2
  }

  function RootText(steps: seq<Step>): string {
    if Shares(steps) then StoredText(steps[0].body.payload) else "null"
  }

  function StoredPayload(steps: seq<Step>, i: nat): Stored
    requires i < |steps|
  {
    var text := StoredText(steps[i].body.payload);
    if Shares(steps) && text == StoredText(steps[0].body.payload) then Stored("", true) else Stored(text, false)
  }

  method PlanRootDedup(steps: seq<Step>) returns (root: string, plan: seq<Stored>)
    ensures root == RootText(steps)
    ensures |plan| == |steps| && forall i :: 0 <= i < |steps| ==> plan[i] == StoredPayload(steps, i)
  {
    root := "null";
    var texts := Texts(steps);
    plan := seq(|steps|, i requires 0 <= i < |steps| => Stored(texts[i], false));
    if |steps| == 0 { return; }
    var candidate := plan[0].payload;
    var matches := 0;
    for i := 0 to |plan|
      invariant matches == Matches(texts[..i], candidate)
    {
      assert texts[..i + 1][..i] == texts[..i];
      if plan[i].payload == candidate { matches := matches + 1; }
    }
    assert texts[..|plan|] == texts;
    if matches < 2 { return; }
    root := candidate;
    for i := 0 to |plan|
      invariant |plan| == |steps|
      invariant forall k :: 0 <= k < i ==> plan[k] == StoredPayload(steps, k)
      invariant forall k :: i <= k < |plan| ==> plan[k] == Stored(texts[k], false)
    {
      if plan[i].payload == candidate { plan := plan[i := Stored("", true)]; }
    }
  }

  /**
   * Sharing loses no byte: resolving each stored payload against the root gives back its own stored form,
   * and if the first payload occurs twice no step keeps a copy of it.
   */
  lemma SharingIsLossless(steps: seq<Step>, i: nat)
    requires i < |steps|
    ensures Resolved(RootText(steps), StoredPayload(steps, i)) == StoredText(steps[i].body.payload)
    ensures (exists a, b :: 0 <= a < b < |steps| && Texts(steps)[a] == Texts(steps)[b] == Texts(steps)[0])
            ==> (StoredPayload(steps, i).isRoot <==> Texts(steps)[i] == Texts(steps)[0])
  {
    if a, b :| 0 <= a < b < |steps| && Texts(steps)[a] == Texts(steps)[b] == Texts(steps)[0] {
      TwoMatches(Texts(steps), Texts(steps)[0], a, b);
    }
  }

  lemma {:induction false} OneMatch(texts: seq<string>, text: string, a: nat)
    requires a < |texts| && texts[a] == text
    ensures Matches(texts, text) >= 1
  {
    if a < |texts| - 1 { OneMatch(texts[..|texts| - 1], text, a); }
  }

  lemma {:induction false} TwoMatches(texts: seq<string>, text: string, a: nat, b: nat)
    requires a < b < |texts| && texts[a] == text == texts[b]
    ensures Matches(texts, text) >= 2
  {
    if b < |texts| - 1 { TwoMatches(texts[..|texts| - 1], text, a, b); } else { OneMatch(texts[..|texts| - 1], text, a); }
  }
}
