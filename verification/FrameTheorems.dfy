/** What one hook handler's commit does, in every reachable state. */
module FrameTheorems {
  import opened Basics
  import opened Subagents
  import opened FrameRuns
  import opened FrameProofs

  /** The commit of call `k` succeeds in the state that `evs` reaches. */
  ghost predicate Commits1(evs: seq<Event>, k: nat) {
    var s := Exec(evs);
    InPhase(s, k, false, true) && Unchanged(s.rows, s.calls[k].target, s.calls[k].snap)
  }

  function Before(evs: seq<Event>, k: nat): (row: Row)
    requires Commits1(evs, k)
  {
    Exec(evs).rows[Exec(evs).calls[k].target]
  }

  function After(evs: seq<Event>, k: nat): (row: Row)
    requires Commits1(evs, k)
  {
    Step(Exec(evs), Commit(k)).rows[Exec(evs).calls[k].target]
  }

  lemma CommitFacts(evs: seq<Event>, k: nat)
    requires AllSafe(evs) && Commits1(evs, k)
    ensures var c := Exec(evs).calls[k];
            && WellFormed(Before(evs, k).refs)
            && ApplyRow(c.m, c.stamp, c.phase.live, Before(evs, k)) == Some(After(evs, k))
  {
    OccReachable(evs);
    ListsStayWellFormed(evs);
    CommitIsAtomic(Exec(evs), k);
    assert CallInv(Exec(evs), Exec(evs).calls[k]);
  }

  // ---------------------------------------------------------------------------------------------
  // Any commit
  // ---------------------------------------------------------------------------------------------

  /** A committed call's columns: its stamp, and those that its kind of change sets. */
  predicate RowChanges(m: Mutation, stamp: int, was: Row, now: Row) {
    var r := was.(refs := now.refs, lastSeen := stamp);
    match m
    case FailNative(_, status) => now == r.(status := status)
    case ResetSession(_, agentType, ppid, status) =>
      now == r.(agentType := agentType, ppid := ppid, status := status, verified := true)
    case _ => now == r
  }

  /**
   * Whatever landed between its attempts, a call that commits changes the row version it replaces exactly
   * as its kind of change says, place by place and column by column, and no other row.
   */
  lemma CommitChanges(evs: seq<Event>, k: nat)
    requires AllSafe(evs) && Commits1(evs, k)
    ensures var s, c := Exec(evs), Exec(evs).calls[k];
            && Changes(c.m, c.phase.live, Before(evs, k).refs, After(evs, k).refs)
            && RowChanges(c.m, c.stamp, Before(evs, k), After(evs, k))
            && Step(s, Commit(k)).rows == s.rows[c.target := After(evs, k)]
  {
    CommitFacts(evs, k);
    var c := Exec(evs).calls[k];
    ApplyChanges(c.m, c.phase.live, Before(evs, k).refs);
  }

  /** A committed upsert leaves the broker one reference, in the new turn, and touches no other reference. */
  lemma UpsertIsExact(evs: seq<Event>, k: nat)
    requires AllSafe(evs) && Commits1(evs, k) && Exec(evs).calls[k].m.UpsertBroker?
    ensures var m, was, now := Exec(evs).calls[k].m, Before(evs, k).refs, After(evs, k).refs;
            && (exists i :: OnlyProxyOf(now, i, m.proc, m.turn, m.ts))
            && (if HasProxyOf(was, m.proc) then exists i: nat :: Retagged(was, now, i, m.proc, m.turn, m.ts)
                else |now| == |was| + 1 && now[..|was|] == was)
  {
    CommitChanges(evs, k);
    CommitFacts(evs, k);
    var c := Exec(evs).calls[k];
    UpsertLeavesOne(Before(evs, k).refs, c.m.proc, c.m.turn, c.m.ts, c.phase.live);
  }

  /** A call that found something to change goes on to write it; only one that found nothing gives up. */
  lemma GivesUpIff(s: State, k: nat, unread: set<int>)
    requires ListInv(s) && Enabled(s, Compute(k, unread))
    ensures Step(s, Compute(k, unread)).calls[k].phase == Done(NothingToDo) <==> Misses(s.calls[k].m, s.calls[k].snap.refs)
    ensures Step(s, Compute(k, unread)).calls[k].phase.Computed? <==> !Misses(s.calls[k].m, s.calls[k].snap.refs)
  {
    var c := s.calls[k];
    assert CallLists(c);
    ApplyChanges(c.m, Verified(c.snap.refs, s.dead, unread), c.snap.refs);
  }

  /**
   * A call that is left alone commits: holding the row as it is, and with something to change, its next two
   * statements make its change.
   */
  lemma UndisturbedCallCommits(evs: seq<Event>, k: nat, unread: set<int>)
    requires AllSafe(evs) && Enabled(Exec(evs), Compute(k, unread)) && Exec(evs).calls[k].fold.None?
    requires var s, c := Exec(evs), Exec(evs).calls[k];
             c.target in s.rows && c.snap == s.rows[c.target] && !Misses(c.m, c.snap.refs)
    ensures var s, c, s' := Exec(evs), Exec(evs).calls[k], Exec(evs + [Compute(k, unread), Commit(k)]);
            && k in s'.calls && s'.calls[k].phase == Done(Committed)
            && c.target in s'.rows && s'.rows == s.rows[c.target := s'.rows[c.target]]
            && Changes(c.m, Verified(c.snap.refs, s.dead, unread), c.snap.refs, s'.rows[c.target].refs)
            && RowChanges(c.m, c.stamp, c.snap, s'.rows[c.target])
  {
    var s, c := Exec(evs), Exec(evs).calls[k];
    var e1, e2 := evs + [Compute(k, unread)], evs + [Compute(k, unread), Commit(k)];
    assert e1[..|e1| - 1] == evs && e2[..|e2| - 1] == e1;
    ListsStayWellFormed(evs);
    assert CallLists(c);
    ApplyChanges(c.m, Verified(c.snap.refs, s.dead, unread), c.snap.refs);
    assert Exec(e1) == Step(s, Compute(k, unread));
    assert Exec(e2) == Step(Exec(e1), Commit(k));
  }

  /** The narrow writers set their columns and leave the list, the frame id and every other row alone. */
  lemma NarrowWritesKeepLists(s: State, w: Write)
    requires Enabled(s, Plain(w)) && (w.HookPath? || w.StatusOnly?)
    ensures var was, now := s.rows[w.id], Step(s, Plain(w)).rows;
            && now == s.rows[w.id := now[w.id]]
            && now[w.id].refs == was.refs && now[w.id].fid == was.fid && now[w.id].startedAt == was.startedAt
            && now[w.id].lastSeen == w.stamp && now[w.id].status == w.status
            && (if w.HookPath? then now[w.id].agentType == w.agentType && now[w.id].ppid == w.ppid && now[w.id].verified
                else now[w.id].agentType == was.agentType && now[w.id].ppid == was.ppid && now[w.id].verified == was.verified)
  {
  }

  // ---------------------------------------------------------------------------------------------
  // SessionStart filter-merge
  // ---------------------------------------------------------------------------------------------

  /** The baseline of a reset is the set of natives that its row held when the handler first read it. */
  lemma {:induction false} BaselineIsEntry(evs: seq<Event>, k: nat)
    requires k in Exec(evs).calls && Exec(evs).calls[k].m.ResetSession?
    ensures exists n: nat ::
              && n <= |evs| && Exec(evs).calls[k].target in Exec(evs[..n]).rows
              && k !in Exec(evs[..n]).calls
              && Exec(evs).calls[k].m.baseline == NativeKeys(Exec(evs[..n]).rows[Exec(evs).calls[k].target].refs)
  {
    if evs != [] {
      var front := evs[..|evs| - 1];
      if k in Exec(front).calls {
        assert Exec(front).calls[k].m == Exec(evs).calls[k].m && Exec(front).calls[k].target == Exec(evs).calls[k].target;
        BaselineIsEntry(front, k);
        var n: nat :| && n <= |front| && Exec(front).calls[k].target in Exec(front[..n]).rows
                      && k !in Exec(front[..n]).calls
                      && Exec(front).calls[k].m.baseline
                         == NativeKeys(Exec(front[..n]).rows[Exec(front).calls[k].target].refs);
        assert evs[..n] == front[..n];
      } else {
        assert evs[..|evs| - 1] == front;
      }
    }
  }

  /** `live` is what a reset that looked at `refs` in some state of the run would have verified. */
  ghost predicate WasVerified(evs: seq<Event>, refs: seq<Ref>, live: set<Proc>) {
    exists n: nat, unread: set<int> :: n <= |evs| && live == Verified(refs, Exec(evs[..n]).dead, unread)
  }

  lemma WasVerifiedLater(evs: seq<Event>, e: Event, refs: seq<Ref>, live: set<Proc>)
    requires WasVerified(evs, refs, live)
    ensures WasVerified(evs + [e], refs, live)
  {
    var n: nat, unread: set<int> :| n <= |evs| && live == Verified(refs, Exec(evs[..n]).dead, unread);
    assert (evs + [e])[..n] == evs[..n];
    assert n <= |evs + [e]| && live == Verified(refs, Exec((evs + [e])[..n]).dead, unread);
  }

  /** The processes a pending write treats as live were verified in some earlier state of the run. */
  lemma {:induction false} LiveWasVerified(evs: seq<Event>, k: nat)
    requires InPhase(Exec(evs), k, false, true)
    ensures WasVerified(evs, Exec(evs).calls[k].snap.refs, Exec(evs).calls[k].phase.live)
  {
    if evs != [] {
      var front, e := evs[..|evs| - 1], evs[|evs| - 1];
      var c := Exec(evs).calls[k];
      if InPhase(Exec(front), k, false, true) {
        assert Exec(front).calls[k] == c;
        LiveWasVerified(front, k);
      } else {
        assert e.Compute? && e.k == k;
        assert front[..|front|] == front;
        assert c.phase.live == Verified(c.snap.refs, Exec(front[..|front|]).dead, e.unread);
      }
      WasVerifiedLater(front, e, c.snap.refs, c.phase.live);
      assert evs == front + [e];
    }
  }

  /**
   * SessionStart filter-merge.  Whatever is written between a reset's attempts, the list it commits is,
   * in order, exactly the references of the row version it replaces that are proxies it verified or
   * natives that were not there at entry.
   */
  lemma SessionStartMerge(evs: seq<Event>, k: nat)
    requires AllSafe(evs) && Commits1(evs, k) && Exec(evs).calls[k].m.ResetSession?
    ensures var c := Exec(evs).calls[k];
            && After(evs, k).refs == Filter(Before(evs, k).refs,
                                            (r: Ref) => SurvivesReset(c.m.baseline, c.phase.live, r))
            && (forall r :: r in Before(evs, k).refs && !r.proxy ==> (r in After(evs, k).refs <==> KeyOf(r) !in c.m.baseline))
            && ProxyProcs(After(evs, k).refs) == ProxyProcs(Before(evs, k).refs) * c.phase.live
            && (exists n: nat :: n <= |evs| && c.target in Exec(evs[..n]).rows && k !in Exec(evs[..n]).calls
                                 && c.m.baseline == NativeKeys(Exec(evs[..n]).rows[c.target].refs))
            && WasVerified(evs, c.snap.refs, c.phase.live)
  {
    LiveWasVerified(evs, k);
    CommitFacts(evs, k);
    BaselineIsEntry(evs, k);
    var c := Exec(evs).calls[k];
    ProxyProcsAfter(c.m, c.phase.live, Before(evs, k).refs);
  }

  /**
   * A reset keeps a proxy of a living process if and only if it could read the process's start time:
   * a failed read drops a live agent's reference.
   */
  lemma ResetKeepsLiveIffReadable(s: State, k: nat, unread: set<int>, p: Proc)
    requires ListInv(s) && Enabled(s, Compute(k, unread)) && s.calls[k].m.ResetSession?
    requires p in ProxyProcs(s.calls[k].snap.refs) && p !in s.dead
    ensures var c := Step(s, Compute(k, unread)).calls[k];
            c.phase.Computed? && (p in ProxyProcs(c.phase.next.refs) <==> p.pid !in unread)
  {
    ProxyProcsAfter(s.calls[k].m, Verified(s.calls[k].snap.refs, s.dead, unread), s.calls[k].snap.refs);
  }

  // ---------------------------------------------------------------------------------------------
  // Turn-exact detach and stop failure
  // ---------------------------------------------------------------------------------------------

  /**
   * A committed turn stop removes exactly one reference of the version it replaces: a proxy of that
   * process in exactly that turn, with an empty turn matching only an empty one.  A reference that an
   * upsert has moved to another turn in the meantime is never the one removed.
   */
  lemma TurnStopIsExact(evs: seq<Event>, k: nat)
    requires AllSafe(evs) && Commits1(evs, k) && Exec(evs).calls[k].m.DetachTurn?
    ensures var m := Exec(evs).calls[k].m;
            && (exists i: nat ::
                  && i < |Before(evs, k).refs| && Before(evs, k).refs[i].proxy
                  && Before(evs, k).refs[i].proc == m.proc && Before(evs, k).refs[i].turn == m.turn
                  && After(evs, k).refs == Before(evs, k).refs[..i] + Before(evs, k).refs[i + 1..])
            && m.proc !in ProxyProcs(After(evs, k).refs)
            && After(evs, k).(refs := [], lastSeen := 0) == Before(evs, k).(refs := [], lastSeen := 0)
  {
    CommitFacts(evs, k);
    var c := Exec(evs).calls[k];
    DetachTurnExact(Before(evs, k).refs, c.m.proc, c.m.turn, c.phase.live);
  }

  /** A turn stop computed from a version without that turn gives up and writes nothing. */
  lemma LateTurnStopGivesUp(s: State, k: nat, unread: set<int>)
    requires ListInv(s) && Enabled(s, Compute(k, unread)) && s.calls[k].m.DetachTurn?
    ensures Step(s, Compute(k, unread)).calls[k].phase == Done(NothingToDo)
       <==> forall r :: r in s.calls[k].snap.refs && Hit(Broker(s.calls[k].m.proc), r) ==> r.turn != s.calls[k].m.turn
  {
    var c := s.calls[k];
    DetachTurnExact(c.snap.refs, c.m.proc, c.m.turn, Verified(c.snap.refs, s.dead, unread));
  }

  /**
   * A stop-failure call that commits has, in that one write, removed exactly the named native from the
   * version it replaced and set the status; nothing else on the row changed.
   */
  lemma StopFailureIsOneWrite(evs: seq<Event>, k: nat)
    requires AllSafe(evs) && Commits1(evs, k) && Exec(evs).calls[k].m.FailNative?
    ensures var c := Exec(evs).calls[k];
            && (exists i: nat ::
                  && i < |Before(evs, k).refs| && !Before(evs, k).refs[i].proxy && Before(evs, k).refs[i].id == c.m.id
                  && After(evs, k).refs == Before(evs, k).refs[..i] + Before(evs, k).refs[i + 1..])
            && After(evs, k) == Before(evs, k).(refs := After(evs, k).refs, status := c.m.status, lastSeen := c.stamp)
  {
    CommitFacts(evs, k);
    var c := Exec(evs).calls[k];
    FailNativeExact(Before(evs, k).refs, c.m.id, c.m.status, c.phase.live);
  }
}
