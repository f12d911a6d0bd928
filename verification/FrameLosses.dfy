/**
 * Two families of runs that lose a living agent, one for each assumption of FrameProofs that the code
 * itself can break: a stamp written twice to one row, and a start time that cannot be read.
 */
module FrameLosses {
  import opened Basics
  import opened Subagents
  import opened FrameRuns
  import opened FrameProofs

  /** Events that are enabled one after another, with the states in between. */
  ghost predicate Seg(evs: seq<Event>, states: seq<State>, stamped: bool, readable: bool) {
    && |states| == |evs| + 1
    && forall i :: 0 <= i < |evs| ==>
         && Enabled(states[i], evs[i]) && Step(states[i], evs[i]) == states[i + 1]
         && (stamped ==> Fresh(states[i], evs[i])) && (readable ==> Readable(states[i], evs[i]))
  }

  lemma {:induction false} Follow(pre: seq<Event>, evs: seq<Event>, states: seq<State>, stamped: bool, readable: bool)
    requires Seg(evs, states, stamped, readable) && states[0] == Exec(pre)
    ensures Exec(pre + evs) == states[|evs|]
    ensures stamped && AllFresh(pre) ==> AllFresh(pre + evs)
    ensures readable && AllReadable(pre) ==> AllReadable(pre + evs)
  {
    if evs == [] {
      assert pre + evs == pre;
    } else {
      var n := |evs| - 1;
      Follow(pre, evs[..n], states[..n + 1], stamped, readable);
      assert (pre + evs)[..|pre + evs| - 1] == pre + evs[..n];
    }
  }

  /** Two frames of one pane: an agent and a child of another kind, and a native task of the agent's. */
  datatype Scene = Scene(agent: Ident, child: Ident, agentRow: Row, childRow: Row, task: string)

  predicate ValidScene(c: Scene) {
    && c.agent.pane == c.child.pane && c.agent.proc != c.child.proc
    && c.agentRow.fid != c.childRow.fid && c.agentRow.agentType != c.childRow.agentType
    && c.agentRow.refs == [] && c.childRow.refs == []
  }

  function Fold(c: Scene): Mutation {
    AttachProxy(c.childRow.agentType, c.child.proc, c.agentRow.lastSeen)
  }

  function Task(c: Scene): Mutation { NativeStart(c.task, c.agentRow.agentType, c.agentRow.lastSeen + 1) }

  function Folded(c: Scene): Row {
    c.agentRow.(refs := [ProxyRef(c.childRow.agentType, c.child.proc, "", c.agentRow.lastSeen)])
  }

  function Tasked(c: Scene): Row {
    c.agentRow.(refs := [NativeRef(c.task, c.agentRow.agentType, c.agentRow.lastSeen + 1)],
                lastSeen := c.agentRow.lastSeen + 1)
  }

  /**
   * The agent's session start has just stamped its row.  Its descendant scan attaches the child to that
   * row under the same stamp and deletes the child's frame, while a subagent start that read the row
   * before the attach writes it back afterwards: the row still shows the stamp it read.
   */
  function ReusedStamp(c: Scene): seq<Event> {
    Inserts(c) + FoldReads(c) + TaskReads(c) + BothWrite()
  }

  function Inserts(c: Scene): seq<Event> { [Plain(Insert(c.child, c.childRow)), Plain(Insert(c.agent, c.agentRow))] }

  function FoldReads(c: Scene): seq<Event> {
    [Begin(0, c.agent, Fold(c), c.agentRow.lastSeen), Scan(0, c.child), Examine(0, {}), Compute(0, {})]
  }

  function TaskReads(c: Scene): seq<Event> {
    [Begin(1, c.agent, Task(c), c.agentRow.lastSeen + 1), Compute(1, {})]
  }

  function BothWrite(): seq<Event> { [Commit(0), FoldAway(0), Commit(1)] }

  function Loaded(c: Scene, calls: map<nat, Call>): State {
    State(map[c.child := c.childRow, c.agent := c.agentRow], calls,
          [Entry(None, Insert(c.child, c.childRow)), Entry(None, Insert(c.agent, c.agentRow))],
          {}, {c.child, c.agent}, {c.childRow.fid, c.agentRow.fid},
          {(c.childRow.fid, c.childRow.lastSeen), (c.agentRow.fid, c.agentRow.lastSeen)})
  }

  function FoldCall(c: Scene, fold: Option<Victim>, phase: Phase): Call {
    Call(c.agent, Fold(c), c.agentRow.lastSeen, c.agentRow, 0, fold, phase)
  }

  function FoldPending(c: Scene): Call {
    FoldCall(c, Some(Victim(c.child, c.childRow, true)), Computed(Folded(c), {}))
  }

  function TaskCall(c: Scene, phase: Phase): Call {
    Call(c.agent, Task(c), c.agentRow.lastSeen + 1, c.agentRow, 0, None, phase)
  }

  lemma Computes(c: Scene, live: set<Proc>, stamp: int)
    requires ValidScene(c)
    ensures ApplyRow(Fold(c), stamp, live, c.agentRow) == Some(Folded(c).(lastSeen := stamp))
    ensures ApplyRow(Task(c), c.agentRow.lastSeen + 1, live, c.agentRow) == Some(Tasked(c))
    ensures ApplyRow(Task(c), c.agentRow.lastSeen + 1, live, Folded(c))
            == Some(Tasked(c).(refs := Folded(c).refs + Tasked(c).refs))
  {
    var p, n := Folded(c).refs[0], Tasked(c).refs[0];
    assert UpdateSubagents([], Start, p) == [p] && UpdateSubagents([], Start, n) == [n];
    assert !RefMatches(p, n);
    assert UpdateSubagents([p], Start, n) == [p] + [n];
  }

  function Start1(c: Scene): State {
    State(map[c.child := c.childRow], map[], [Entry(None, Insert(c.child, c.childRow))], {}, {c.child},
          {c.childRow.fid}, {(c.childRow.fid, c.childRow.lastSeen)})
  }

  lemma StepInserts(c: Scene) returns (states: seq<State>)
    requires ValidScene(c)
    ensures Seg(Inserts(c), states, true, true) && states[0] == INIT && states[2] == Loaded(c, map[])
  {
    states := [INIT, Start1(c), Loaded(c, map[])];
    assert Step(INIT, Plain(Insert(c.child, c.childRow))).rows == Start1(c).rows;
    var s := Step(Start1(c), Plain(Insert(c.agent, c.agentRow)));
    assert s.rows == Loaded(c, map[]).rows && s.log == Loaded(c, map[]).log;
  }

  lemma StepFoldBegins(c: Scene, s2: State, s3: State, s4: State)
    requires ValidScene(c) && s2 == Loaded(c, map[]) && s3 == Loaded(c, map[0 := FoldCall(c, None, Ready)])
    requires s4 == Loaded(c, map[0 := FoldCall(c, Some(Victim(c.child, c.childRow, false)), Ready)])
    ensures var e := Begin(0, c.agent, Fold(c), c.agentRow.lastSeen); Enabled(s2, e) && Step(s2, e) == s3
    ensures Enabled(s3, Scan(0, c.child)) && Step(s3, Scan(0, c.child)) == s4
  {
  }

  lemma StepFoldComputes(c: Scene, s4: State, s5: State, s6: State)
    requires ValidScene(c) && s4 == Loaded(c, map[0 := FoldCall(c, Some(Victim(c.child, c.childRow, false)), Ready)])
    requires s5 == Loaded(c, map[0 := FoldCall(c, Some(Victim(c.child, c.childRow, true)), Ready)])
    requires s6 == Loaded(c, map[0 := FoldPending(c)])
    ensures Enabled(s4, Examine(0, {})) && Step(s4, Examine(0, {})) == s5
    ensures Enabled(s5, Compute(0, {})) && Step(s5, Compute(0, {})) == s6 && Readable(s5, Compute(0, {}))
  {
    assert Verified([], {}, {}) == {};
    Computes(c, {}, c.agentRow.lastSeen);
  }

  lemma StepFoldReads(c: Scene) returns (states: seq<State>)
    requires ValidScene(c)
    ensures Seg(FoldReads(c), states, true, true)
    ensures states[0] == Loaded(c, map[]) && states[4] == Loaded(c, map[0 := FoldPending(c)])
  {
    var s2, s3 := Loaded(c, map[]), Loaded(c, map[0 := FoldCall(c, None, Ready)]);
    var s4 := Loaded(c, map[0 := FoldCall(c, Some(Victim(c.child, c.childRow, false)), Ready)]);
    var s5 := Loaded(c, map[0 := FoldCall(c, Some(Victim(c.child, c.childRow, true)), Ready)]);
    var s6 := Loaded(c, map[0 := FoldPending(c)]);
    StepFoldBegins(c, s2, s3, s4);
    StepFoldComputes(c, s4, s5, s6);
    states := [s2, s3, s4, s5, s6];
    Four(FoldReads(c), states);
  }

  /** Four reads in a row stamp nothing and reset nothing. */
  lemma Four(evs: seq<Event>, states: seq<State>)
    requires |evs| == 4 && |states| == 5
    requires forall i :: 0 <= i < 4 ==> !evs[i].Plain? && !evs[i].Commit? && Enabled(states[i], evs[i])
    requires forall i :: 0 <= i < 4 ==> Readable(states[i], evs[i]) && Step(states[i], evs[i]) == states[i + 1]
    ensures Seg(evs, states, true, true)
  {
  }

  lemma StepTaskReads(c: Scene) returns (states: seq<State>)
    requires ValidScene(c)
    ensures Seg(TaskReads(c), states, true, true)
    ensures states[0] == Loaded(c, map[0 := FoldPending(c)]) && states[2] == BothPending(c)
  {
    assert Verified([], {}, {}) == {};
    Computes(c, {}, c.agentRow.lastSeen);
    var s7 := Loaded(c, map[0 := FoldPending(c), 1 := TaskCall(c, Ready)]);
    assert Step(s7, Compute(1, {})).calls == BothPending(c).calls;
    states := [Loaded(c, map[0 := FoldPending(c)]), s7, BothPending(c)];
  }

  function BothPending(c: Scene): State {
    Loaded(c, map[0 := FoldPending(c), 1 := TaskCall(c, Computed(Tasked(c), {}))])
  }

  lemma FoldCommits(c: Scene) returns (s: State)
    requires ValidScene(c)
    ensures Enabled(BothPending(c), Commit(0)) && Step(BothPending(c), Commit(0)) == s
    ensures s.rows == map[c.child := c.childRow, c.agent := Folded(c)] && s.owed == {c.child, c.agent} && s.dead == {}
    ensures s.calls == map[0 := FoldPending(c).(phase := Folding), 1 := TaskCall(c, Computed(Tasked(c), {}))]
    ensures s.log == FinalLog(c)[..3]
  {
    Computes(c, {}, c.agentRow.lastSeen);
    s := Step(BothPending(c), Commit(0));
  }

  lemma FoldsAway(c: Scene, s: State) returns (s': State)
    requires ValidScene(c)
    requires s.rows == map[c.child := c.childRow, c.agent := Folded(c)] && s.owed == {c.child, c.agent} && s.dead == {}
    requires s.calls == map[0 := FoldPending(c).(phase := Folding), 1 := TaskCall(c, Computed(Tasked(c), {}))]
    requires s.log == FinalLog(c)[..3]
    ensures Enabled(s, FoldAway(0)) && Step(s, FoldAway(0)) == s'
    ensures s'.rows == map[c.agent := Folded(c)] && s'.owed == {c.child, c.agent} && s'.dead == {}
    ensures 1 in s'.calls && s'.calls[1] == TaskCall(c, Computed(Tasked(c), {})) && s'.log == FinalLog(c)[..4]
  {
    s' := Step(s, FoldAway(0));
    assert s.rows - {c.child} == map[c.agent := Folded(c)];
  }

  lemma TaskCommits(c: Scene, s: State) returns (s': State)
    requires ValidScene(c)
    requires s.rows == map[c.agent := Folded(c)] && s.owed == {c.child, c.agent} && s.dead == {}
    requires 1 in s.calls && s.calls[1] == TaskCall(c, Computed(Tasked(c), {})) && s.log == FinalLog(c)[..4]
    ensures Enabled(s, Commit(1)) && Step(s, Commit(1)) == s'
    ensures s'.rows == map[c.agent := Tasked(c)] && s'.log == FinalLog(c) && s'.owed == {c.child, c.agent} && s'.dead == {}
  {
    s' := Step(s, Commit(1));
  }

  lemma StepWrites(c: Scene) returns (states: seq<State>)
    requires ValidScene(c)
    ensures Seg(BothWrite(), states, false, true) && states[0] == BothPending(c)
    ensures states[3].rows == map[c.agent := Tasked(c)] && states[3].log == FinalLog(c)
    ensures states[3].owed == {c.child, c.agent} && states[3].dead == {}
  {
    var s9 := FoldCommits(c);
    var s10 := FoldsAway(c, s9);
    var s11 := TaskCommits(c, s10);
    states := [BothPending(c), s9, s10, s11];
    Three(BothWrite(), states);
  }

  lemma Three(evs: seq<Event>, states: seq<State>)
    requires |evs| == 3 && |states| == 4 && forall i :: 0 <= i < 3 ==> !evs[i].Compute? && Enabled(states[i], evs[i])
    requires forall i :: 0 <= i < 3 ==> Step(states[i], evs[i]) == states[i + 1]
    ensures Seg(evs, states, false, true)
  {
  }

  function FinalLog(c: Scene): seq<Entry> {
    [Entry(None, Insert(c.child, c.childRow)), Entry(None, Insert(c.agent, c.agentRow)),
     Entry(Some(0), Mutate(c.agent, Fold(c), c.agentRow.lastSeen, {})), Entry(Some(0), Remove(c.child)),
     Entry(Some(1), Mutate(c.agent, Task(c), c.agentRow.lastSeen + 1, {}))]
  }

  /** Done one after another, the same writes leave both references on the agent's row. */
  lemma ReusedStampReplay(c: Scene, log: seq<Entry>)
    requires ValidScene(c) && log == FinalLog(c)
    ensures Replay(log) == Some(map[c.agent := Tasked(c).(refs := Folded(c).refs + Tasked(c).refs)])
  {
    Computes(c, {}, c.agentRow.lastSeen);
    var t1, t2 := map[c.child := c.childRow], map[c.child := c.childRow, c.agent := c.agentRow];
    var t3, t4 := map[c.child := c.childRow, c.agent := Folded(c)], map[c.agent := Folded(c)];
    ReplayTo(log, 0, map[], t1);
    ReplayTo(log, 1, t1, t2);
    ReplayTo(log, 2, t2, t3);
    ReplayTo(log, 3, t3, t4);
    ReplayTo(log, 4, t4, map[c.agent := Tasked(c).(refs := Folded(c).refs + Tasked(c).refs)]);
    assert log[..5] == log;
  }

  lemma ReplayTo(log: seq<Entry>, i: nat, rows: Table, next: Table)
    requires i < |log| && Replay(log[..i]) == Some(rows) && Applies(rows, log[i].w) && Perform(rows, log[i].w) == next
    ensures Replay(log[..i + 1]) == Some(next)
  {
    ReplayAppend(log[..i], log[i]);
    assert log[..i + 1] == log[..i] + [log[i]];
  }

  /**
   * Without fresh stamps the table is not the replay of the log, and a living agent that had a frame
   * ends up with neither a frame nor a proxy.  Up to the commit that reuses the row's own stamp, as
   * the descendant scan does, every stamp is fresh.
   */
  lemma ReusedStampLosesAgent(c: Scene)
    requires ValidScene(c)
    ensures var s := Exec(ReusedStamp(c));
            && c.child in s.owed && c.child.proc !in s.dead && !Represented(s.rows, c.child)
            && Replay(s.log).Some? && Replay(s.log) != Some(s.rows)
            && AllFresh(Inserts(c) + FoldReads(c) + TaskReads(c)) && AllReadable(ReusedStamp(c))
  {
    var a := StepInserts(c);
    var b := StepFoldReads(c);
    var d := StepTaskReads(c);
    var e := StepWrites(c);
    Follow([], Inserts(c), a, true, true);
    assert [] + Inserts(c) == Inserts(c);
    Follow(Inserts(c), FoldReads(c), b, true, true);
    Follow(Inserts(c) + FoldReads(c), TaskReads(c), d, true, true);
    Follow(Inserts(c) + FoldReads(c) + TaskReads(c), BothWrite(), e, false, true);
    ReusedStampDiffers(c, e[3]);
  }

  lemma ReusedStampDiffers(c: Scene, s: State)
    requires ValidScene(c) && s.rows == map[c.agent := Tasked(c)] && s.log == FinalLog(c)
    requires s.owed == {c.child, c.agent} && s.dead == {}
    ensures c.child in s.owed && c.child.proc !in s.dead && !Represented(s.rows, c.child)
    ensures Replay(s.log).Some? && Replay(s.log) != Some(s.rows)
  {
    ReusedStampReplay(c, s.log);
    assert |Tasked(c).refs| != |Folded(c).refs + Tasked(c).refs|;
    assert s.rows[c.agent] == Tasked(c);
  }

  // ---------------------------------------------------------------------------------------------
  // Exactly when the reused stamp loses the folded agent
  // ---------------------------------------------------------------------------------------------

  /**
   * A scan is about to attach child `v` to its row under the stamp that the row carries, and then to delete
   * the child's row, which nobody has touched; no third frame of the pane has a proxy for the child.
   */
  ghost predicate AboutToFold(s: State, k: nat) {
    && InPhase(s, k, false, true) && s.calls[k].fold.Some?
    && var c, v := s.calls[k], s.calls[k].fold.value;
       && Unchanged(s.rows, c.target, c.snap) && c.stamp == s.rows[c.target].lastSeen && Unchanged(s.rows, v.id, v.row)
       && forall t :: t in s.rows && t != c.target && t != v.id && t.pane == v.id.pane ==> v.id.proc !in ProxyProcs(s.rows[t].refs)
  }

  function FoldThenWrite(k: nat, j: nat): seq<Event> { [Commit(k), FoldAway(k), Commit(j)] }

  /** The scan's attach, and then its delete, as they change table and calls. */
  lemma AttachStep(s: State, k: nat)
    requires OccInv(s) && ListInv(s) && AboutToFold(s, k) && Examined(s, s.calls[k])
    ensures var c, s1 := s.calls[k], Step(s, Commit(k));
            && s1.rows == s.rows[c.target := c.phase.next] && s1.calls == s.calls[k := c.(phase := Folding)]
            && c.target != c.fold.value.id && c.target.pane == c.fold.value.id.pane
            && c.phase.next.fid == s.rows[c.target].fid && c.phase.next.lastSeen == s.rows[c.target].lastSeen
            && c.fold.value.examined && c.fold.value.id.proc in ProxyProcs(c.phase.next.refs)
  {
    var c := s.calls[k];
    assert CallInv(s, c) && CallLists(c);
    ProxyProcsAfter(c.m, c.phase.live, c.snap.refs);
  }

  lemma DeleteStep(s: State, k: nat)
    requires k in s.calls && s.calls[k].phase.Folding? && s.calls[k].fold.Some? && s.calls[k].fold.value.examined
    requires Unchanged(s.rows, s.calls[k].fold.value.id, s.calls[k].fold.value.row)
    ensures Enabled(s, FoldAway(k))
    ensures var c, s' := s.calls[k], Step(s, FoldAway(k));
            s'.rows == s.rows - {c.fold.value.id} && s'.calls == s.calls[k := c.(phase := Done(Committed))]
  {
  }

  /**
   * Let another handler `j` have computed its write for the same row when the scan folds the child, and let
   * it write next.  The child is then still shown if and only if `j` did not hold the version that the
   * scan replaced, or the list it wrote happens to contain the child's proxy.
   */
  lemma ReusedStampLosesIff(evs: seq<Event>, k: nat, j: nat)
    requires AllSafe(evs) && AboutToFold(Exec(evs), k)
    requires j != k && InPhase(Exec(evs), j, false, true) && Exec(evs).calls[j].target == Exec(evs).calls[k].target
    ensures var s, c, d := Exec(evs), Exec(evs).calls[k], Exec(evs).calls[j];
            (Represented(Exec(evs + FoldThenWrite(k, j)).rows, c.fold.value.id)
             <==> !Holds(d, c.target, s.rows[c.target]) || c.fold.value.id.proc in ProxyProcs(d.phase.next.refs))
  {
    var s, c, d := Exec(evs), Exec(evs).calls[k], Exec(evs).calls[j];
    var v, s1 := c.fold.value, Step(s, Commit(k));
    OccReachable(evs);
    ListsStayWellFormed(evs);
    ExaminedReachable(evs);
    AttachStep(s, k);
    DeleteStep(s1, k);
    var s2 := Step(s1, FoldAway(k));
    ThreeMore(evs, Commit(k), FoldAway(k), Commit(j), s1, s2);
    HeldIffUnchanged(s, c.target, j);
    LastWrite(s2, j);
    OnlyProxyIs(Step(s2, Commit(j)).rows, c.target, v.id);
  }

  lemma LastWrite(s: State, j: nat)
    requires InPhase(s, j, false, true)
    ensures Step(s, Commit(j)).rows == if Unchanged(s.rows, s.calls[j].target, s.calls[j].snap)
                                       then s.rows[s.calls[j].target := s.calls[j].phase.next] else s.rows
  {
  }

  /** Among the versions that a handler can hold, the compare-and-swap test singles out the current one. */
  lemma HeldIffUnchanged(s: State, id: Ident, j: nat)
    requires OccInv(s) && id in s.rows && InPhase(s, j, false, true) && s.calls[j].target == id
    ensures Unchanged(s.rows, id, s.calls[j].snap) <==> s.calls[j].snap == s.rows[id]
    ensures Holds(s.calls[j], id, s.rows[id]) <==> s.calls[j].snap == s.rows[id]
  {
    assert CallInv(s, s.calls[j]);
    assert Holds(s.calls[j], id, s.calls[j].snap);
    assert !Mistaken(s.calls[j].snap, s.rows[id]);
  }

  lemma OnlyProxyIs(rows: Table, t: Ident, id: Ident)
    requires t in rows && id !in rows && t.pane == id.pane
    requires forall u :: u in rows && u != t && u.pane == id.pane ==> id.proc !in ProxyProcs(rows[u].refs)
    ensures Represented(rows, id) <==> id.proc in ProxyProcs(rows[t].refs)
  {
  }

  lemma ThreeMore(evs: seq<Event>, a: Event, b: Event, d: Event, s1: State, s2: State)
    requires Enabled(Exec(evs), a) && Step(Exec(evs), a) == s1
    requires Enabled(s1, b) && Step(s1, b) == s2 && Enabled(s2, d)
    ensures Exec(evs + [a, b, d]) == Step(s2, d)
  {
    var e1, e2, e3 := evs + [a], evs + [a, b], evs + [a, b, d];
    assert e1[..|e1| - 1] == evs && e2[..|e2| - 1] == e1 && e3[..|e3| - 1] == e2;
    assert Exec(e1) == s1;
    assert Exec(e2) == s2;
  }

  /** A session start that cannot read one start time, after a proxy was attached. */
  function UnreadReset(c: Scene): seq<Event> {
    Attaches(c) + Resets(c)
  }

  function Attaches(c: Scene): seq<Event> {
    [Plain(Insert(c.agent, c.agentRow)), Begin(0, c.agent, Fold(c), c.agentRow.lastSeen + 1), Compute(0, {}), Commit(0)]
  }

  function Resets(c: Scene): seq<Event> {
    [Begin(1, c.agent, Reset(c), c.agentRow.lastSeen + 2), Compute(1, {c.child.proc.pid}), Commit(1)]
  }

  function Reset(c: Scene): Mutation { ResetSession({}, c.agentRow.agentType, 0, "idle") }

  function Attached(c: Scene): Row { Folded(c).(lastSeen := c.agentRow.lastSeen + 1) }

  ghost predicate IsAttached(c: Scene, s: State) {
    && s.rows == map[c.agent := Attached(c)] && s.calls.Keys == {0} && s.dead == {} && s.owed == {c.agent, c.child}
    && s.used == {(c.agentRow.fid, c.agentRow.lastSeen), (c.agentRow.fid, c.agentRow.lastSeen + 1)}
  }

  function AttachCall(c: Scene, phase: Phase): Call {
    Call(c.agent, Fold(c), c.agentRow.lastSeen + 1, c.agentRow, 0, None, phase)
  }

  function Solo(c: Scene, calls: map<nat, Call>): State {
    State(map[c.agent := c.agentRow], calls, [Entry(None, Insert(c.agent, c.agentRow))], {}, {c.agent},
          {c.agentRow.fid}, {(c.agentRow.fid, c.agentRow.lastSeen)})
  }

  lemma StepAttachReads(c: Scene)
    requires ValidScene(c)
    ensures var e := Attaches(c);
            var s1, s2 := Solo(c, map[]), Solo(c, map[0 := AttachCall(c, Ready)]);
            && Enabled(INIT, e[0]) && Step(INIT, e[0]) == s1 && Fresh(INIT, e[0])
            && Enabled(s1, e[1]) && Step(s1, e[1]) == s2 && Fresh(s1, e[1])
            && Enabled(s2, e[2]) && Fresh(s2, e[2])
            && Step(s2, e[2]) == Solo(c, map[0 := AttachCall(c, Computed(Attached(c), {}))])
  {
    assert Verified([], {}, {}) == {};
    Computes(c, {}, c.agentRow.lastSeen + 1);
    assert Step(INIT, Attaches(c)[0]).rows == Solo(c, map[]).rows;
  }

  lemma AttachCommits(c: Scene, s3: State) returns (s4: State)
    requires ValidScene(c) && s3 == Solo(c, map[0 := AttachCall(c, Computed(Attached(c), {}))])
    ensures Enabled(s3, Commit(0)) && Step(s3, Commit(0)) == s4 && Fresh(s3, Commit(0)) && IsAttached(c, s4)
  {
    Computes(c, {}, c.agentRow.lastSeen + 1);
    s4 := Step(s3, Commit(0));
    assert s4.rows == map[c.agent := Attached(c)];
  }

  lemma StepAttaches(c: Scene) returns (states: seq<State>)
    requires ValidScene(c)
    ensures Seg(Attaches(c), states, true, false) && states[0] == INIT && IsAttached(c, states[4])
  {
    hide Step, Enabled, Fresh, Solo;
    StepAttachReads(c);
    var s3 := Solo(c, map[0 := AttachCall(c, Computed(Attached(c), {}))]);
    var s4 := AttachCommits(c, s3);
    states := [INIT, Solo(c, map[]), Solo(c, map[0 := AttachCall(c, Ready)]), s3, s4];
  }

  lemma ResetBegins(c: Scene, s4: State) returns (s5: State)
    requires ValidScene(c) && IsAttached(c, s4)
    ensures Enabled(s4, Resets(c)[0]) && Step(s4, Resets(c)[0]) == s5 && 1 in s5.calls
    ensures s5.calls[1] == Call(c.agent, Reset(c), c.agentRow.lastSeen + 2, Attached(c), 0, None, Ready)
    ensures s5.rows == s4.rows && s5.dead == {} && s5.owed == s4.owed && s5.used == s4.used
  {
    assert NativeKeys(Attached(c).refs) == {};
    s5 := Step(s4, Resets(c)[0]);
  }

  /** The proxy's start time is unread, so nothing is verified and the next list is empty. */
  lemma ResetDrops(c: Scene)
    requires ValidScene(c)
    ensures Verified(Attached(c).refs, {}, {c.child.proc.pid}) == {}
    ensures Apply(Reset(c), {}, Attached(c).refs) == Some([])
  {
    var live := Verified(Attached(c).refs, {}, {c.child.proc.pid});
    assert live == {};
    assert !SurvivesReset({}, {}, Attached(c).refs[0]);
  }

  lemma ResetComputes(c: Scene, s5: State) returns (s6: State)
    requires ValidScene(c) && 1 in s5.calls && s5.dead == {}
    requires s5.calls[1] == Call(c.agent, Reset(c), c.agentRow.lastSeen + 2, Attached(c), 0, None, Ready)
    ensures Enabled(s5, Resets(c)[1]) && Step(s5, Resets(c)[1]) == s6 && 1 in s6.calls && s6 == Put(s5, 1, s6.calls[1])
    ensures s6.calls[1].phase.Computed? && s6.calls[1].phase.next.refs == []
    ensures s6.calls[1].phase.next.fid == c.agentRow.fid && s6.calls[1].phase.next.lastSeen == c.agentRow.lastSeen + 2
    ensures s6.calls[1].target == c.agent && s6.calls[1].snap == Attached(c) && s6.calls[1].m == Reset(c)
  {
    ResetDrops(c);
    s6 := Step(s5, Resets(c)[1]);
  }

  lemma ResetCommits(c: Scene, s6: State) returns (s7: State)
    requires ValidScene(c) && 1 in s6.calls && s6.rows == map[c.agent := Attached(c)] && s6.dead == {}
    requires s6.owed == {c.agent, c.child}
    requires s6.used == {(c.agentRow.fid, c.agentRow.lastSeen), (c.agentRow.fid, c.agentRow.lastSeen + 1)}
    requires s6.calls[1].phase.Computed? && s6.calls[1].phase.next.refs == []
    requires s6.calls[1].phase.next.fid == c.agentRow.fid && s6.calls[1].phase.next.lastSeen == c.agentRow.lastSeen + 2
    requires s6.calls[1].target == c.agent && s6.calls[1].snap == Attached(c) && s6.calls[1].m == Reset(c)
    ensures Enabled(s6, Commit(1)) && Step(s6, Commit(1)) == s7 && Fresh(s6, Commit(1))
    ensures s7.rows.Keys == {c.agent} && s7.rows[c.agent].refs == [] && s7.dead == {} && s7.owed == {c.agent, c.child}
  {
    s7 := Step(s6, Commit(1));
  }

  lemma StepResets(c: Scene, s4: State) returns (states: seq<State>)
    requires ValidScene(c) && IsAttached(c, s4)
    ensures Seg(Resets(c), states, true, false) && states[0] == s4
    ensures states[3].rows.Keys == {c.agent} && states[3].rows[c.agent].refs == []
    ensures states[3].dead == {} && states[3].owed == {c.agent, c.child}
  {
    var s5 := ResetBegins(c, s4);
    var s6 := ResetComputes(c, s5);
    var s7 := ResetCommits(c, s6);
    states := [s4, s5, s6, s7];
  }

  /** One unreadable start time is enough for a session start to drop a living agent's only reference. */
  lemma UnreadResetLosesAgent(c: Scene)
    requires ValidScene(c)
    ensures var s := Exec(UnreadReset(c));
            && AllFresh(UnreadReset(c))
            && c.child in s.owed && c.child.proc !in s.dead && !Represented(s.rows, c.child)
  {
    var a := StepAttaches(c);
    var b := StepResets(c, a[4]);
    Follow([], Attaches(c), a, true, false);
    assert [] + Attaches(c) == Attaches(c);
    Follow(Attaches(c), Resets(c), b, true, false);
  }
}
