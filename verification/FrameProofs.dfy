/** What every interleaving of the hook handlers keeps (see FrameRuns). */
module FrameProofs {
  import opened Basics
  import opened Subagents
  import opened FrameRuns

  // ---------------------------------------------------------------------------------------------
  // No lost update: the concurrent table is the sequential replay of the committed writes
  // ---------------------------------------------------------------------------------------------

  ghost predicate CallInv(s: State, c: Call) {
    && c.snap.fid in s.fids && (c.snap.fid, c.snap.lastSeen) in s.used
    && (c.phase.Computed? ==> ApplyRow(c.m, c.stamp, c.phase.live, c.snap) == Some(c.phase.next))
    && (c.fold.Some? ==>
          var v := c.fold.value;
          && v.row.fid in s.fids && (v.row.fid, v.row.lastSeen) in s.used
          && v.id != c.target && v.id.pane == c.target.pane
          && c.m.AttachProxy? && c.m.proc == v.id.proc)
  }

  ghost predicate OccInv(s: State) {
    && Replay(s.log) == Some(s.rows)
    && NoStale(s)
    && (forall k :: k in s.calls ==> CallInv(s, s.calls[k]))
    && (forall id :: id in s.rows ==> s.rows[id].fid in s.fids && (s.rows[id].fid, s.rows[id].lastSeen) in s.used)
  }

  lemma ReplayAppend(log: seq<Entry>, n: Entry)
    requires Replay(log).Some? && Applies(Replay(log).value, n.w)
    ensures Replay(log + [n]) == Some(Perform(Replay(log).value, n.w))
  {
    assert (log + [n])[..|log|] == log;
  }

  /** A commit that succeeds replaces exactly the row version that its caller read. */
  lemma CommitIsAtomic(s: State, k: nat)
    requires OccInv(s) && InPhase(s, k, false, true)
    requires Unchanged(s.rows, s.calls[k].target, s.calls[k].snap)
    ensures var c := s.calls[k];
            && c.snap == s.rows[c.target]
            && Applies(s.rows, Mutate(c.target, c.m, c.stamp, c.phase.live))
            && s.rows[c.target := c.phase.next] == Perform(s.rows, Mutate(c.target, c.m, c.stamp, c.phase.live))
  {
    var c := s.calls[k];
    assert CallInv(s, c);
    assert Holds(c, c.target, c.snap);
    assert !Mistaken(c.snap, s.rows[c.target]);
  }

  lemma CallInvMonotone(s: State, s': State, c: Call)
    requires CallInv(s, c) && s.fids <= s'.fids && s.used <= s'.used
    ensures CallInv(s', c)
  {
  }

  /** Writing a row under a safe stamp keeps the invariant; `writer` no longer holds a version of it. */
  lemma OccPlain(s: State, w: Write)
    requires OccInv(s) && Enabled(s, Plain(w)) && Safe(s, Plain(w))
    ensures OccInv(Step(s, Plain(w)))
  {
    var s' := Step(s, Plain(w));
    ReplayAppend(s.log, Entry(None, w));
    forall k | k in s'.calls ensures CallInv(s', s'.calls[k]) { CallInvMonotone(s, s', s.calls[k]); }
    forall k, id, read | k in s'.calls && id in s'.rows && Holds(s'.calls[k], id, read)
      ensures !Mistaken(read, s'.rows[id])
    {
      assert Holds(s.calls[k], id, read);
      if id != w.id {
        assert !Mistaken(read, s.rows[id]);
      } else {
        assert Stamped(s, Plain(w)).value == (w.id, s'.rows[id]);
      }
    }
  }

  lemma OccCommit(s: State, k: nat)
    requires OccInv(s) && Enabled(s, Commit(k)) && Safe(s, Commit(k))
    ensures OccInv(Step(s, Commit(k)))
  {
    var s' := Step(s, Commit(k));
    var c := s.calls[k];
    assert CallInv(s, c);
    if Unchanged(s.rows, c.target, c.snap) {
      CommitIsAtomic(s, k);
      ReplayAppend(s.log, Entry(Some(k), Mutate(c.target, c.m, c.stamp, c.phase.live)));
    }
    forall j | j in s'.calls ensures CallInv(s', s'.calls[j]) { CallInvMonotone(s, s', s.calls[j]); }
    forall j, id, read | j in s'.calls && id in s'.rows && Holds(s'.calls[j], id, read)
      ensures !Mistaken(read, s'.rows[id])
    {
      assert Holds(s.calls[j], id, read);
      if id != c.target || !Unchanged(s.rows, c.target, c.snap) { assert !Mistaken(read, s.rows[id]); }
    }
  }

  lemma OccFoldAway(s: State, k: nat)
    requires OccInv(s) && Enabled(s, FoldAway(k))
    ensures OccInv(Step(s, FoldAway(k)))
  {
    var s' := Step(s, FoldAway(k));
    var v := s.calls[k].fold.value;
    if Unchanged(s.rows, v.id, v.row) {
      ReplayAppend(s.log, Entry(Some(k), Remove(v.id)));
    }
    forall j | j in s'.calls ensures CallInv(s', s'.calls[j]) { CallInvMonotone(s, s', s.calls[j]); }
    forall j, id, read | j in s'.calls && id in s'.rows && Holds(s'.calls[j], id, read)
      ensures !Mistaken(read, s'.rows[id])
    {
      assert Holds(s.calls[j], id, read);
      assert !Mistaken(read, s.rows[id]);
    }
  }

  /** A handler holds something else now, and is not mistaken about it. */
  lemma OccPut(s: State, k: nat, c: Call)
    requires OccInv(s) && CallInv(s, c)
    requires forall id, read :: id in s.rows && Holds(c, id, read) ==> !Mistaken(read, s.rows[id])
    ensures OccInv(Put(s, k, c))
  {
    var s' := Put(s, k, c);
    forall j | j in s'.calls ensures CallInv(s', s'.calls[j]) {
      CallInvMonotone(s, s', if j == k then c else s.calls[j]);
    }
    forall j, id, read | j in s'.calls && id in s'.rows && Holds(s'.calls[j], id, read)
      ensures !Mistaken(read, s'.rows[id])
    {
      if j != k { assert Holds(s.calls[j], id, read); }
    }
  }

  /** What call `k` holds either it held before, or it is a row as it stands in the table. */
  lemma HoldsOldOrCurrent(s: State, e: Event, k: nat, id: Ident, read: Row)
    requires Enabled(s, e) && (e.Begin? || e.Reread? || e.Scan? || e.FindLeftover? || e.Examine? || e.Compute? || e.Reload?) && k == e.k
    requires id in s.rows && Holds(Step(s, e).calls[k], id, read)
    ensures read == s.rows[id] || (k in s.calls && Holds(s.calls[k], id, read))
  {
  }

  lemma LocalPut(s: State, e: Event, k: nat)
    requires OccInv(s) && Enabled(s, e) && (e.Begin? || e.Reread? || e.Scan? || e.FindLeftover? || e.Examine? || e.Compute? || e.Reload?) && k == e.k
    ensures k in Step(s, e).calls && Step(s, e) == Put(s, k, Step(s, e).calls[k]) && CallInv(s, Step(s, e).calls[k])
  {
    if k in s.calls { assert CallInv(s, s.calls[k]); }
  }

  /** Events that only change what a handler holds. */
  lemma OccLocal(s: State, e: Event)
    requires OccInv(s) && Enabled(s, e) && !e.Plain? && !e.Commit? && !e.FoldAway?
    ensures OccInv(Step(s, e))
  {
    if e.Die? {
      OccDie(s, e.p);
    } else {
      LocalPut(s, e, e.k);
      var c := Step(s, e).calls[e.k];
      forall id, read | id in s.rows && Holds(c, id, read) ensures !Mistaken(read, s.rows[id]) {
        HoldsOldOrCurrent(s, e, e.k, id, read);
      }
      OccPut(s, e.k, c);
    }
  }

  lemma OccDie(s: State, p: Proc)
    requires OccInv(s)
    ensures OccInv(Step(s, Die(p)))
  {
    var s' := Step(s, Die(p));
    forall j | j in s'.calls ensures CallInv(s', s'.calls[j]) { CallInvMonotone(s, s', s.calls[j]); }
    forall j, id, read | j in s'.calls && id in s'.rows && Holds(s'.calls[j], id, read)
      ensures !Mistaken(read, s'.rows[id])
    {
      assert Holds(s.calls[j], id, read);
    }
  }

  lemma OccStep(s: State, e: Event)
    requires OccInv(s) && Enabled(s, e) && Safe(s, e)
    ensures OccInv(Step(s, e))
  {
    match e
    case Plain(w) => OccPlain(s, w);
    case Commit(k) => OccCommit(s, k);
    case FoldAway(k) => OccFoldAway(s, k);
    case _ => OccLocal(s, e);
  }

  lemma {:induction false} OccReachable(evs: seq<Event>)
    requires AllSafe(evs)
    ensures OccInv(Exec(evs))
  {
    if evs != [] {
      var front := evs[..|evs| - 1];
      OccReachable(front);
      if Enabled(Exec(front), evs[|evs| - 1]) { OccStep(Exec(front), evs[|evs| - 1]); }
    }
  }

  /** A stamp that the frame has never carried collides with nothing any handler holds. */
  lemma FreshIsSafe(s: State, e: Event)
    requires OccInv(s) && Enabled(s, e) && Fresh(s, e)
    ensures Safe(s, e)
  {
    if Stamped(s, e).Some? {
      var (id, row) := Stamped(s, e).value;
      forall k, read | k in s.calls && Some(k) != Writer(e) && Holds(s.calls[k], id, read)
        ensures !Mistaken(read, row)
      {
        assert CallInv(s, s.calls[k]);
      }
    }
  }

  /**
   * The guard that a writer can check: a run in which every stamp is new to its frame, or is relied on by
   * no other handler at the moment it is written, is safe.
   */
  lemma {:induction false} GuardedRunsAreSafe(evs: seq<Event>)
    requires AllGuarded(evs)
    ensures AllSafe(evs)
  {
    if evs != [] {
      var front, e := evs[..|evs| - 1], evs[|evs| - 1];
      GuardedRunsAreSafe(front);
      OccReachable(front);
      if Enabled(Exec(front), e) && Fresh(Exec(front), e) { FreshIsSafe(Exec(front), e); }
    }
  }

  lemma {:induction false} FreshRunsAreGuarded(evs: seq<Event>)
    requires AllFresh(evs)
    ensures AllGuarded(evs)
  {
    if evs != [] { FreshRunsAreGuarded(evs[..|evs| - 1]); }
  }

  /**
   * No lost update.  However the handlers' statements interleave, as long as no write carries a stamp under
   * which another handler holds a different version of the frame, the table is what the committed writes
   * produce when each is applied whole to the then-current table, one at a time in commit order.
   */
  lemma NoLostUpdate(evs: seq<Event>)
    requires AllSafe(evs)
    ensures Replay(Exec(evs).log) == Some(Exec(evs).rows)
  {
    OccReachable(evs);
  }

  /**
   * How much freshness is needed: an event keeps "nobody can take the current version for the one
   * they read" if and only if its stamp is not one under which another handler holds a different
   * version of that frame.
   */
  lemma SafeIsExact(s: State, e: Event)
    requires OccInv(s) && Enabled(s, e)
    ensures NoStale(Step(s, e)) <==> Safe(s, e)
  {
    if Safe(s, e) {
      OccStep(s, e);
    } else {
      var (id, row) := Stamped(s, e).value;
      var k, read :| k in s.calls && Some(k) != Writer(e) && Holds(s.calls[k], id, read) && Mistaken(read, row);
      var s' := Step(s, e);
      assert s'.rows[id] == row;
      assert k in s'.calls && Holds(s'.calls[k], id, read);
    }
  }

  /** The same over a run, and both ways: safe runs are those in which nobody can ever be mistaken. */
  lemma {:induction false} NeverMistakenIff(evs: seq<Event>)
    ensures (forall i :: 0 <= i <= |evs| ==> NoStale(Exec(evs[..i]))) <==> AllSafe(evs)
  {
    assert evs[..|evs|] == evs;
    if evs != [] {
      var front, e := evs[..|evs| - 1], evs[|evs| - 1];
      NeverMistakenIff(front);
      assert forall i :: 0 <= i < |evs| ==> front[..i] == evs[..i];
      if AllSafe(front) {
        OccReachable(front);
        if Enabled(Exec(front), e) { SafeIsExact(Exec(front), e); }
      }
    }
  }

  /** For a write under the stamp that its row carries, the guard says: nobody else holds what it replaces. */
  lemma ReusedStampIsUnheldIff(s: State, k: nat)
    requires OccInv(s) && Enabled(s, Commit(k)) && Unchanged(s.rows, s.calls[k].target, s.calls[k].snap)
    requires s.calls[k].stamp == s.rows[s.calls[k].target].lastSeen
    ensures Unheld(s, Commit(k))
       <==> forall j :: j in s.calls && j != k ==> !Holds(s.calls[j], s.calls[k].target, s.rows[s.calls[k].target])
  {
    var c := s.calls[k];
    assert CallInv(s, c);
    assert Stamped(s, Commit(k)) == Some((c.target, c.phase.next));
    assert c.phase.next.fid == s.rows[c.target].fid && c.phase.next.lastSeen == s.rows[c.target].lastSeen;
    forall j, read | j in s.calls && Holds(s.calls[j], c.target, read)
      ensures (read.fid == c.phase.next.fid && read.lastSeen == c.phase.next.lastSeen) <==> read == s.rows[c.target]
    {
      assert !Mistaken(read, s.rows[c.target]);
    }
  }

  /**
   * The scan's own case.  A commit under the stamp that its row already carries keeps "nobody can take the
   * current version for the one they read" if and only if it writes the row as it is, or no other call
   * holds the version that it replaces.
   */
  lemma ReusedStampIsSafeIff(s: State, k: nat)
    requires OccInv(s) && Enabled(s, Commit(k)) && Unchanged(s.rows, s.calls[k].target, s.calls[k].snap)
    requires s.calls[k].stamp == s.rows[s.calls[k].target].lastSeen
    ensures var c := s.calls[k];
            NoStale(Step(s, Commit(k)))
            <==> c.phase.next == s.rows[c.target]
                 || forall j :: j in s.calls && j != k ==> !Holds(s.calls[j], c.target, s.rows[c.target])
  {
    var c := s.calls[k];
    SafeIsExact(s, Commit(k));
    CommitIsAtomic(s, k);
    assert CallInv(s, c);
    assert Stamped(s, Commit(k)) == Some((c.target, c.phase.next));
    assert c.phase.next.fid == s.rows[c.target].fid && c.phase.next.lastSeen == s.rows[c.target].lastSeen;
    if c.phase.next != s.rows[c.target] {
      if j :| j in s.calls && j != k && Holds(s.calls[j], c.target, s.rows[c.target]) {
        assert Mistaken(s.rows[c.target], c.phase.next) && !Safe(s, Commit(k));
      } else {
        forall j, read | j in s.calls && j != k && Holds(s.calls[j], c.target, read) ensures !Mistaken(read, c.phase.next) {
          assert !Mistaken(read, s.rows[c.target]);
        }
        assert Safe(s, Commit(k));
      }
    }
  }

  /** The row that a commit writes is its change made to the row that the table holds. */
  ghost predicate LosesNothing(s: State, e: Event)
    requires Enabled(s, e)
  {
    e.Commit? && Unchanged(s.rows, s.calls[e.k].target, s.calls[e.k].snap) ==>
      var c := s.calls[e.k];
      ApplyRow(c.m, c.stamp, c.phase.live, s.rows[c.target]) == Some(c.phase.next)
  }

  /** Exactly when one step loses an update, whatever the stamps. */
  lemma StepLosesIff(s: State, e: Event)
    requires Replay(s.log) == Some(s.rows) && Enabled(s, e)
    ensures Replay(Step(s, e).log) == Some(Step(s, e).rows) <==> LosesNothing(s, e)
  {
    match e
    case Plain(w) => ReplayAppend(s.log, Entry(None, w));
    case FoldAway(k) =>
      var v := s.calls[k].fold.value;
      if Unchanged(s.rows, v.id, v.row) { ReplayAppend(s.log, Entry(Some(k), Remove(v.id))); }
    case Commit(k) => CommitLosesIff(s, k);
    case _ =>
  }

  lemma CommitLosesIff(s: State, k: nat)
    requires Replay(s.log) == Some(s.rows) && Enabled(s, Commit(k))
    ensures Replay(Step(s, Commit(k)).log) == Some(Step(s, Commit(k)).rows) <==> LosesNothing(s, Commit(k))
  {
    var c, s' := s.calls[k], Step(s, Commit(k));
    if Unchanged(s.rows, c.target, c.snap) {
      var n := Entry(Some(k), Mutate(c.target, c.m, c.stamp, c.phase.live));
      if Applies(s.rows, n.w) {
        ReplayAppend(s.log, n);
        assert s'.rows[c.target] == c.phase.next;
        assert Perform(s.rows, n.w)[c.target] == ApplyRow(c.m, c.stamp, c.phase.live, s.rows[c.target]).value;
      } else {
        assert (s.log + [n])[..|s.log|] == s.log;
      }
    }
  }

  ghost predicate NothingLost(evs: seq<Event>) {
    evs == [] ||
    var s, e := Exec(evs[..|evs| - 1]), evs[|evs| - 1];
    NothingLost(evs[..|evs| - 1]) && (Enabled(s, e) ==> LosesNothing(s, e))
  }

  ghost predicate Serial(evs: seq<Event>) {
    Replay(Exec(evs).log) == Some(Exec(evs).rows)
  }

  /**
   * The exact condition for no lost update over a run, with no assumption about stamps: the table has
   * equalled the one-at-a-time replay of the commit log all along if and only if every successful commit
   * wrote what its change makes of the row that it replaced.
   */
  lemma {:induction false} SerialIff(evs: seq<Event>)
    ensures (forall i :: 0 <= i <= |evs| ==> Serial(evs[..i])) <==> NothingLost(evs)
  {
    assert evs[..|evs|] == evs;
    if evs != [] {
      var front, e := evs[..|evs| - 1], evs[|evs| - 1];
      SerialIff(front);
      assert forall i :: 0 <= i < |evs| ==> front[..i] == evs[..i];
      if Serial(front) && Enabled(Exec(front), e) { StepLosesIff(Exec(front), e); }
    }
  }

  // ---------------------------------------------------------------------------------------------
  // A call writes at most once, and only when it reports success
  // ---------------------------------------------------------------------------------------------

  /** How many list changes call `k` has committed. */
  function Commits(log: seq<Entry>, k: nat): nat {
    if log == [] then 0
    else
      var last := log[|log| - 1];
      Commits(log[..|log| - 1], k) + if last.caller == Some(k) && last.w.Mutate? then 1 else 0
  }

  lemma CommitsAppend(log: seq<Entry>, n: Entry, k: nat)
    ensures Commits(log + [n], k) == Commits(log, k) + if n.caller == Some(k) && n.w.Mutate? then 1 else 0
  {
    assert (log + [n])[..|log|] == log;
  }

  /** The call has committed its change. */
  predicate Wrote(p: Phase) { p.Folding? || p == Done(Committed) }

  ghost predicate CountInv(s: State) {
    forall k: nat :: Commits(s.log, k) == if k in s.calls && Wrote(s.calls[k].phase) then 1 else 0
  }

  /** What one event does to call `k` and to the log. */
  lemma CountOne(s: State, e: Event, k: nat)
    requires Enabled(s, e)
    ensures var s' := Step(s, e);
            if s'.log == s.log then
              (k in s.calls && Wrote(s.calls[k].phase)) == (k in s'.calls && Wrote(s'.calls[k].phase))
            else
              && |s'.log| == |s.log| + 1 && s'.log == s.log + [s'.log[|s.log|]]
              && var n := s'.log[|s.log|];
                 if n.caller == Some(k) && n.w.Mutate? then
                   k in s'.calls && Wrote(s'.calls[k].phase) && k in s.calls && !Wrote(s.calls[k].phase)
                 else (k in s.calls && Wrote(s.calls[k].phase)) == (k in s'.calls && Wrote(s'.calls[k].phase))
  {
  }

  lemma CountStep(s: State, e: Event)
    requires CountInv(s) && Enabled(s, e)
    ensures CountInv(Step(s, e))
  {
    var s' := Step(s, e);
    forall k: nat ensures Commits(s'.log, k) == if k in s'.calls && Wrote(s'.calls[k].phase) then 1 else 0 {
      CountOne(s, e, k);
      if s'.log != s.log { CommitsAppend(s.log, s'.log[|s.log|], k); }
    }
  }

  /**
   * A call that reports success has committed its change exactly once; a call that found nothing to
   * change, lost its row, ran out of attempts or is still trying has committed nothing.
   */
  lemma {:induction false} CommitsOnceOrNever(evs: seq<Event>, k: nat)
    ensures CountInv(Exec(evs))
    ensures k in Exec(evs).calls ==>
              Commits(Exec(evs).log, k) == if Wrote(Exec(evs).calls[k].phase) then 1 else 0
  {
    if evs != [] {
      var front := evs[..|evs| - 1];
      CommitsOnceOrNever(front, k);
      if Enabled(Exec(front), evs[|evs| - 1]) { CountStep(Exec(front), evs[|evs| - 1]); }
    }
  }

  // ---------------------------------------------------------------------------------------------
  // Every reachable row has a well-formed list
  // ---------------------------------------------------------------------------------------------

  ghost predicate CallLists(c: Call) {
    WellFormed(c.snap.refs) && (c.phase.Computed? ==> WellFormed(c.phase.next.refs))
  }

  ghost predicate ListInv(s: State) {
    && (forall id :: id in s.rows ==> WellFormed(s.rows[id].refs))
    && (forall k :: k in s.calls ==> CallLists(s.calls[k]))
  }

  lemma ListPut(s: State, k: nat, c: Call)
    requires ListInv(s) && CallLists(c)
    ensures ListInv(Put(s, k, c))
  {
  }

  lemma ListCompute(s: State, k: nat, unread: set<int>)
    requires ListInv(s) && Enabled(s, Compute(k, unread))
    ensures ListInv(Step(s, Compute(k, unread)))
  {
    var c := s.calls[k];
    assert CallLists(c);
    ApplyKeepsWellFormed(c.m, Verified(c.snap.refs, s.dead, unread), c.snap.refs);
    ListPut(s, k, Step(s, Compute(k, unread)).calls[k]);
  }

  lemma ListCommit(s: State, k: nat)
    requires ListInv(s) && Enabled(s, Commit(k))
    ensures ListInv(Step(s, Commit(k)))
  {
    assert CallLists(s.calls[k]);
  }

  lemma ListReads(s: State, e: Event)
    requires ListInv(s) && Enabled(s, e) && (e.Begin? || e.Reread? || e.Scan? || e.FindLeftover? || e.Examine? || e.Reload?)
    ensures ListInv(Step(s, e))
  {
    var c := Step(s, e).calls[e.k];
    assert e.k in s.calls ==> CallLists(s.calls[e.k]);
    assert Step(s, e) == Put(s, e.k, c);
    ListPut(s, e.k, c);
  }

  lemma ListStep(s: State, e: Event)
    requires ListInv(s) && Enabled(s, e)
    ensures ListInv(Step(s, e))
  {
    match e
    case Compute(k, unread) => ListCompute(s, k, unread);
    case Commit(k) => ListCommit(s, k);
    case Plain(_) =>
    case Die(_) =>
    case FoldAway(k) => assert CallLists(s.calls[k]);
    case _ => ListReads(s, e);
  }

  /** In every reachable table, whatever the stamps, every row's subagent list is well formed. */
  lemma {:induction false} ListsStayWellFormed(evs: seq<Event>)
    ensures ListInv(Exec(evs))
  {
    if evs != [] {
      var front := evs[..|evs| - 1];
      ListsStayWellFormed(front);
      if Enabled(Exec(front), evs[|evs| - 1]) { ListStep(Exec(front), evs[|evs| - 1]); }
    }
  }

  // ---------------------------------------------------------------------------------------------
  // Folding loses no agent
  // ---------------------------------------------------------------------------------------------

  ghost predicate AllDeadProxies(refs: seq<Ref>, dead: set<Proc>) {
    forall r :: r in refs ==> r.proxy && r.proc in dead
  }

  /** A fold that has examined its child found nothing there to keep; before that it writes nothing. */
  ghost predicate Examined(s: State, c: Call) {
    && (c.fold.Some? && c.fold.value.examined ==> AllDeadProxies(c.fold.value.row.refs, s.dead))
    && (c.fold.Some? && (c.phase.Computed? || c.phase.Conflicted? || c.phase.Folding?) ==> c.fold.value.examined)
  }

  ghost predicate FoldInv(s: State, c: Call) {
    && (c.phase.Computed? && c.m.ResetSession? ==>
          forall p :: p in ProxyProcs(c.snap.refs) ==> p in s.dead || p in c.phase.live)
    && (Deletes(c.phase) ==>
          && c.fold.Some?
          && var v := c.fold.value;
             (v.id in s.rows && s.rows[v.id].fid == v.row.fid && v.id in s.owed && v.id.proc !in s.dead
              ==> ProxiedElsewhere(s.rows, v.id)))
    && (c.m.AttachProxy? || c.m.UpsertBroker? ==> c.m.proc != c.target.proc)
  }

  ghost predicate AgentInv(s: State) {
    && (forall id :: id in s.owed && id.proc !in s.dead ==> Represented(s.rows, id))
    && (forall k :: k in s.calls ==> Examined(s, s.calls[k]) && FoldInv(s, s.calls[k]))
  }

  /** A proxy elsewhere survives a commit unless the commit ends that process's representation. */
  lemma ElsewhereAfterCommit(s: State, k: nat, id: Ident)
    requires OccInv(s) && ListInv(s) && AgentInv(s) && Enabled(s, Commit(k))
    requires id in Step(s, Commit(k)).owed && id.proc !in s.dead && ProxiedElsewhere(s.rows, id)
    ensures ProxiedElsewhere(Step(s, Commit(k)).rows, id)
  {
    var s' := Step(s, Commit(k));
    var c := s.calls[k];
    var t :| t in s.rows && t != id && t.pane == id.pane && id.proc in ProxyProcs(s.rows[t].refs);
    if Unchanged(s.rows, c.target, c.snap) {
      CommitIsAtomic(s, k);
      assert CallLists(c);
      ProxyProcsAfter(c.m, c.phase.live, c.snap.refs);
      assert FoldInv(s, c);
    }
    assert t in s'.rows && id.proc in ProxyProcs(s'.rows[t].refs);
  }

  lemma CommitRepresents(s: State, k: nat, id: Ident)
    requires OccInv(s) && ListInv(s) && AgentInv(s) && Enabled(s, Commit(k))
    requires id in Step(s, Commit(k)).owed && id.proc !in s.dead
    ensures Represented(Step(s, Commit(k)).rows, id)
  {
    var s' := Step(s, Commit(k));
    if id in s.owed {
      if id !in s'.rows { ElsewhereAfterCommit(s, k, id); }
    } else {
      NewlyOwed(s, k, id);
    }
  }

  /** An identity that a commit makes owed is one that the committed list stands for. */
  lemma NewlyOwed(s: State, k: nat, id: Ident)
    requires OccInv(s) && ListInv(s) && AgentInv(s) && Enabled(s, Commit(k))
    requires id in Step(s, Commit(k)).owed && id !in s.owed
    ensures ProxiedElsewhere(Step(s, Commit(k)).rows, id)
  {
    var s', c := Step(s, Commit(k)), s.calls[k];
    assert FoldInv(s, c) && CallInv(s, c);
    CommitIsAtomic(s, k);
    assert CallLists(c);
    ProxyProcsAfter(c.m, c.phase.live, c.snap.refs);
    assert id.proc in ProxyProcs(s'.rows[c.target].refs);
  }

  /** The child that a fold is about to delete has been attached elsewhere. */
  lemma CommitAttaches(s: State, k: nat)
    requires OccInv(s) && ListInv(s) && AgentInv(s) && Enabled(s, Commit(k))
    requires Step(s, Commit(k)).calls[k].phase.Folding?
    ensures ProxiedElsewhere(Step(s, Commit(k)).rows, s.calls[k].fold.value.id)
  {
    var s', c := Step(s, Commit(k)), s.calls[k];
    assert FoldInv(s, c) && CallInv(s, c);
    CommitIsAtomic(s, k);
    assert CallLists(c);
    ProxyProcsAfter(c.m, c.phase.live, c.snap.refs);
    assert c.fold.value.id.proc in ProxyProcs(s'.rows[c.target].refs);
  }

  lemma AgentCommit(s: State, k: nat)
    requires OccInv(s) && ListInv(s) && AgentInv(s) && Enabled(s, Commit(k))
    ensures AgentInv(Step(s, Commit(k)))
  {
    var s' := Step(s, Commit(k));
    forall id | id in s'.owed && id.proc !in s'.dead ensures Represented(s'.rows, id) { CommitRepresents(s, k, id); }
    forall j | j in s'.calls ensures Examined(s', s'.calls[j]) && FoldInv(s', s'.calls[j]) {
      assert Examined(s, s.calls[j]) && FoldInv(s, s.calls[j]);
      if j == k {
        if Deletes(s'.calls[j].phase) { CommitAttaches(s, k); }
      } else if Deletes(s.calls[j].phase) {
        CommitKeepsFold(s, k, s.calls[j].fold.value);
      }
    }
  }

  /** Another fold's child, if its row is still there and it is owed, is still attached elsewhere. */
  lemma CommitKeepsFold(s: State, k: nat, v: Victim)
    requires OccInv(s) && ListInv(s) && AgentInv(s) && Enabled(s, Commit(k))
    requires v.id in s.rows && s.rows[v.id].fid == v.row.fid && v.id in s.owed && v.id.proc !in s.dead
             ==> ProxiedElsewhere(s.rows, v.id)
    ensures var s' := Step(s, Commit(k));
            v.id in s'.rows && s'.rows[v.id].fid == v.row.fid && v.id in s'.owed && v.id.proc !in s'.dead
            ==> ProxiedElsewhere(s'.rows, v.id)
  {
    var s', c := Step(s, Commit(k)), s.calls[k];
    if v.id in s'.rows && s'.rows[v.id].fid == v.row.fid && v.id in s'.owed && v.id.proc !in s'.dead {
      if v.id in s.owed {
        assert CallInv(s, c);
        if Unchanged(s.rows, c.target, c.snap) { CommitIsAtomic(s, k); }
        ElsewhereAfterCommit(s, k, v.id);
      } else {
        NewlyOwed(s, k, v.id);
      }
    }
  }

  /** Deleting a row costs nothing but the identities it stood for, itself and through its proxies. */
  lemma ElsewhereAfterRemove(rows: Table, gone: Ident, id: Ident)
    requires gone in rows && ProxiedElsewhere(rows, id) && id !in Proxied(gone, rows[gone])
    ensures ProxiedElsewhere(rows - {gone}, id)
  {
    var t :| t in rows && t != id && t.pane == id.pane && id.proc in ProxyProcs(rows[t].refs);
    assert id == Ident(id.pane, id.proc);
    assert t in rows - {gone};
  }

  lemma AgentRemove(s: State, gone: Ident)
    requires AgentInv(s) && gone in s.rows
    ensures AgentInv(Step(s, Plain(Remove(gone))))
  {
    var s' := Step(s, Plain(Remove(gone)));
    forall id | id in s'.owed && id.proc !in s'.dead ensures Represented(s'.rows, id) {
      if id !in s'.rows { ElsewhereAfterRemove(s.rows, gone, id); }
    }
    forall j | j in s'.calls ensures Examined(s', s'.calls[j]) && FoldInv(s', s'.calls[j]) {
      assert Examined(s, s.calls[j]) && FoldInv(s, s.calls[j]);
      if Deletes(s'.calls[j].phase) {
        var v := s'.calls[j].fold.value;
        if v.id in s'.rows && s'.rows[v.id].fid == v.row.fid && v.id in s'.owed && v.id.proc !in s'.dead {
          ElsewhereAfterRemove(s.rows, gone, v.id);
        }
      }
    }
  }

  /** A fold that passes its compare-and-swap deletes the version that it examined. */
  lemma FoldDeletesExamined(s: State, k: nat)
    requires OccInv(s) && Enabled(s, FoldAway(k)) && Examined(s, s.calls[k])
    requires Unchanged(s.rows, s.calls[k].fold.value.id, s.calls[k].fold.value.row)
    ensures AllDeadProxies(s.rows[s.calls[k].fold.value.id].refs, s.dead)
  {
    var c := s.calls[k];
    assert Holds(c, c.fold.value.id, c.fold.value.row);
    assert !Mistaken(c.fold.value.row, s.rows[c.fold.value.id]);
  }

  lemma ExaminedStep(s: State, e: Event)
    requires Enabled(s, e) && forall k :: k in s.calls ==> Examined(s, s.calls[k])
    ensures forall k :: k in Step(s, e).calls ==> Examined(Step(s, e), Step(s, e).calls[k])
  {
    var s' := Step(s, e);
    forall k | k in s'.calls ensures Examined(s', s'.calls[k]) {
      if k in s.calls { assert Examined(s, s.calls[k]); }
    }
  }

  lemma {:induction false} ExaminedReachable(evs: seq<Event>)
    ensures forall k :: k in Exec(evs).calls ==> Examined(Exec(evs), Exec(evs).calls[k])
  {
    if evs != [] {
      var front := evs[..|evs| - 1];
      ExaminedReachable(front);
      if Enabled(Exec(front), evs[|evs| - 1]) { ExaminedStep(Exec(front), evs[|evs| - 1]); }
    }
  }

  /**
   * In every interleaving in which nobody can be mistaken: when a fold, of a handler or of the sweep, deletes the
   * child's row, that row holds no native reference and no proxy of a live process, not only when it was
   * examined but at the moment it is deleted.
   */
  lemma FoldDeletesNothingOwned(evs: seq<Event>, k: nat)
    requires AllSafe(evs) && Enabled(Exec(evs), FoldAway(k))
    requires var v := Exec(evs).calls[k].fold.value;
             v.id in Exec(evs).rows && v.id !in Step(Exec(evs), FoldAway(k)).rows
    ensures var s := Exec(evs);
            forall r :: r in s.rows[s.calls[k].fold.value.id].refs ==> r.proxy && r.proc in s.dead
  {
    OccReachable(evs);
    ExaminedReachable(evs);
    FoldDeletesExamined(Exec(evs), k);
  }

  lemma AgentFoldAway(s: State, k: nat)
    requires OccInv(s) && AgentInv(s) && Enabled(s, FoldAway(k))
    ensures AgentInv(Step(s, FoldAway(k)))
  {
    var s' := Step(s, FoldAway(k));
    var v := s.calls[k].fold.value;
    assert FoldInv(s, s.calls[k]);
    if Unchanged(s.rows, v.id, v.row) {
      FoldDeletesExamined(s, k);
      assert forall id :: id in Proxied(v.id, s.rows[v.id]) ==> id.proc in s.dead;
    }
    forall id | id in s'.owed && id.proc !in s'.dead ensures Represented(s'.rows, id) {
      if id !in s'.rows && s'.rows != s.rows { ElsewhereAfterRemove(s.rows, v.id, id); }
    }
    forall j | j in s'.calls ensures Examined(s', s'.calls[j]) && FoldInv(s', s'.calls[j]) {
      assert Examined(s, s.calls[j]) && FoldInv(s, s.calls[j]);
      if Deletes(s'.calls[j].phase) {
        var w := s'.calls[j].fold.value;
        if w.id in s'.rows && s'.rows[w.id].fid == w.row.fid && w.id in s'.owed && w.id.proc !in s'.dead
           && s'.rows != s.rows {
          ElsewhereAfterRemove(s.rows, v.id, w.id);
        }
      }
    }
  }

  lemma ElsewhereMonotone(rows: Table, rows': Table, id: Ident)
    requires ProxiedElsewhere(rows, id)
    requires forall t :: t in rows ==> t in rows' && rows'[t].refs == rows[t].refs
    ensures ProxiedElsewhere(rows', id)
  {
    var t :| t in rows && t != id && t.pane == id.pane && id.proc in ProxyProcs(rows[t].refs);
    assert t in rows';
  }

  /** Inserts and column updates. */
  lemma AgentWrite(s: State, w: Write)
    requires OccInv(s) && AgentInv(s) && Enabled(s, Plain(w)) && !w.Remove?
    ensures AgentInv(Step(s, Plain(w)))
  {
    var s' := Step(s, Plain(w));
    assert forall t :: t in s.rows ==> t in s'.rows && s'.rows[t].refs == s.rows[t].refs;
    forall id | id in s'.owed && id.proc !in s'.dead ensures Represented(s'.rows, id) {
      if id !in s'.rows { ElsewhereMonotone(s.rows, s'.rows, id); }
    }
    forall j | j in s'.calls ensures Examined(s', s'.calls[j]) && FoldInv(s', s'.calls[j]) {
      assert Examined(s, s.calls[j]) && FoldInv(s, s.calls[j]) && CallInv(s, s.calls[j]);
      if Deletes(s.calls[j].phase) {
        var v := s.calls[j].fold.value;
        if v.id in s'.rows && s'.rows[v.id].fid == v.row.fid && v.id in s'.owed && v.id.proc !in s'.dead {
          ElsewhereMonotone(s.rows, s'.rows, v.id);
        }
      }
    }
  }

  /** Deaths, reads and computations leave the table alone. */
  lemma AgentLocal(s: State, e: Event)
    requires AgentInv(s) && Enabled(s, e) && Readable(s, e)
    requires !e.Commit? && !e.FoldAway? && !e.Plain?
    ensures AgentInv(Step(s, e))
  {
    var s' := Step(s, e);
    assert s'.rows == s.rows && s'.owed == s.owed && s.dead <= s'.dead;
    forall j | j in s'.calls ensures Examined(s', s'.calls[j]) && FoldInv(s', s'.calls[j]) {
      if j in s.calls { assert Examined(s, s.calls[j]) && FoldInv(s, s.calls[j]); }
    }
  }

  lemma {:induction false} AgentReachable(evs: seq<Event>)
    requires AllSafe(evs) && AllReadable(evs)
    ensures AgentInv(Exec(evs))
  {
    if evs != [] {
      var front, e := evs[..|evs| - 1], evs[|evs| - 1];
      var s := Exec(front);
      AgentReachable(front);
      OccReachable(front);
      ListsStayWellFormed(front);
      if Enabled(s, e) {
        match e
        case Commit(k) => AgentCommit(s, k);
        case FoldAway(k) => AgentFoldAway(s, k);
        case Plain(w) => if w.Remove? { AgentRemove(s, w.id); } else { AgentWrite(s, w); }
        case _ => AgentLocal(s, e);
      }
    }
  }

  /**
   * Folding loses no agent.  A process that once had a frame or a proxy reference in a pane, and whose
   * representation was not ended by a detach for it, by deleting its frame, or by deleting the frame
   * that held its proxy, is either dead or still represented in that pane.
   */
  lemma FoldingLosesNoAgent(evs: seq<Event>, id: Ident)
    requires AllSafe(evs) && AllReadable(evs)
    requires id in Exec(evs).owed
    ensures id.proc in Exec(evs).dead || Represented(Exec(evs).rows, id)
  {
    AgentReachable(evs);
  }

  /**
   * The descendant scan attaches every child under the stamp that the handler has already written to the
   * row, and a retry writes it once more.  No agent is lost as long as, whenever a stamp is written again,
   * no other handler is between reading the row under that stamp and writing it.
   */
  lemma GuardedFoldingLosesNoAgent(evs: seq<Event>, id: Ident)
    requires AllGuarded(evs) && AllReadable(evs)
    requires id in Exec(evs).owed
    ensures id.proc in Exec(evs).dead || Represented(Exec(evs).rows, id)
  {
    GuardedRunsAreSafe(evs);
    FoldingLosesNoAgent(evs, id);
  }
}
