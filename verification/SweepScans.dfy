/**
 * What a sweep's scan does to every record it is given: the kills it owes it runs, whole and once, and it
 * runs no others (see SweepRuns).
 */
module SweepScans {
  import opened Basics
  import opened Quarantine
  import opened SweepRuns
  import D = Decision
  import K = KillSequence

  // ---------------------------------------------------------------------------------------------
  // What can be seen of one request
  // ---------------------------------------------------------------------------------------------

  /**
   * The records a request was given when it entered the section, if it has, and the quarantine list as it
   * was when it reached each of them.
   */
  datatype Track = Track(visits: Option<seq<Visit>>, seen: map<nat, seq<Entry>>)

  predicate Enters(q: Request) {
    (q.phase.WaitGlobal? && q.filter == "") || q.phase.WaitKey?
  }

  predicate Reaches(q: Request) {
    q.phase.Scanning? && q.phase.todo != []
  }

  /** What one event that happens adds to the track of request `r`. */
  function Tracked(s: State, e: Event, r: nat, t: Track): Track {
    if !e.Go? || e.r != r || r !in s.reqs then t
    else if Enters(s.reqs[r]) then t.(visits := Some(e.visits))
    else if Reaches(s.reqs[r]) then t.(seen := t.seen[s.reqs[r].visit := s.quarantine])
    else t
  }

  function TrackOf(s0: State, evs: seq<Event>, cfg: D.Settings, r: nat): Track {
    if evs == [] then Track(None, map[])
    else
      var front, e := evs[..|evs| - 1], evs[|evs| - 1];
      var s, t := Exec(s0, front, cfg), TrackOf(s0, front, cfg, r);
      if Enabled(s, e) then Tracked(s, e, r, t) else t
  }

  /** The log's effects for visit `n` of request `r`, in order. */
  function EffectsFor(log: seq<Logged>, r: nat, n: nat): seq<Logged> {
    if log == [] then []
    else
      var last := log[|log| - 1];
      EffectsFor(log[..|log| - 1], r, n) + if last.req == r && last.visit == n then [last] else []
  }

  /** The first `m` effects of the kill of `v`. */
  function Whole(r: nat, n: nat, filter: string, apply: bool, v: Visit, m: nat): seq<Logged> {
    seq(m, i requires 0 <= i < m => Logged(r, n, filter, apply, v, i))
  }

  /** The kill that an apply request owes a record that it reaches with this quarantine list. */
  predicate Owed(filter: string, apply: bool, v: Visit, quarantine: seq<Entry>, cfg: D.Settings) {
    && (filter == "" || v.broker.key == filter) && !IsQuarantined(quarantine, v.broker.key)
    && ShouldKill(filter, apply, v, cfg)
  }

  // ---------------------------------------------------------------------------------------------
  // How far a request has come
  // ---------------------------------------------------------------------------------------------

  /** Visit `n` was reached, and the log holds the whole kill that it was owed, or nothing. */
  predicate Settled(s: State, t: Track, r: nat, n: nat, cfg: D.Settings)
    requires r in s.reqs
  {
    && t.visits.Some? && n < |t.visits.value| && n in t.seen
    && var q, v := s.reqs[r], t.visits.value[n];
       EffectsFor(s.log, r, n)
         == if Owed(q.filter, q.apply, v, t.seen[n], cfg) then Whole(r, n, q.filter, q.apply, v, |Effects(v)|) else []
  }

  predicate Untouched(s: State, r: nat, n: nat) {
    EffectsFor(s.log, r, n) == []
  }

  /** The kill of visit `n` is under way: `m` of its effects are done. */
  predicate UnderWay(s: State, t: Track, r: nat, n: nat, v: Visit, m: nat, todo: seq<Visit>, cfg: D.Settings)
    requires r in s.reqs
  {
    && t.visits.Some? && n < |t.visits.value| && v == t.visits.value[n] && todo == t.visits.value[n + 1..]
    && n in t.seen && Owed(s.reqs[r].filter, s.reqs[r].apply, v, t.seen[n], cfg)
    && m <= |Effects(v)| && EffectsFor(s.log, r, n) == Whole(r, n, s.reqs[r].filter, s.reqs[r].apply, v, m)
  }

  /** Visits before `n` are settled, and those from `m` on untouched. */
  ghost predicate Split(s: State, t: Track, r: nat, n: nat, m: nat, cfg: D.Settings)
    requires r in s.reqs
  {
    && (forall i: nat :: i < n ==> Settled(s, t, r, i, cfg))
    && (forall i: nat :: i >= m ==> Untouched(s, r, i))
  }

  ghost predicate TrackInv(s: State, t: Track, r: nat, cfg: D.Settings) {
    if r !in s.reqs then t == Track(None, map[]) && forall n: nat :: Untouched(s, r, n)
    else
      var q := s.reqs[r];
      match q.phase
      case Scanning(todo) =>
        && t.visits.Some? && q.visit <= |t.visits.value| && todo == t.visits.value[q.visit..]
        && Split(s, t, r, q.visit, q.visit, cfg)
      case Killing(v, m, todo) =>
        UnderWay(s, t, r, q.visit, v, m, todo, cfg) && Split(s, t, r, q.visit, q.visit + 1, cfg)
      case Quarantining(v, todo) =>
        UnderWay(s, t, r, q.visit, v, |Effects(v)|, todo, cfg) && Split(s, t, r, q.visit, q.visit + 1, cfg)
      case WaitGlobal => q.visit == 0 && t.visits.None? && Split(s, t, r, 0, 0, cfg)
      case WaitKey => q.visit == 0 && t.visits.None? && Split(s, t, r, 0, 0, cfg)
      case _ =>
        var n := if t.visits.Some? then |t.visits.value| else 0;
        Split(s, t, r, n, n, cfg)
  }

  // ---------------------------------------------------------------------------------------------
  // One step
  // ---------------------------------------------------------------------------------------------

  /** The request's own filter and mode, and the log for it, are as before; and its track has not lost anything. */
  ghost predicate Alike(s: State, s': State, t: Track, t': Track, r: nat) {
    && r in s.reqs && r in s'.reqs && s'.reqs[r].filter == s.reqs[r].filter && s'.reqs[r].apply == s.reqs[r].apply
    && s'.log == s.log && t'.visits == t.visits && forall n :: n in t.seen && n != s.reqs[r].visit ==> n in t'.seen && t'.seen[n] == t.seen[n]
  }

  lemma SplitLater(s: State, s': State, t: Track, t': Track, r: nat, n: nat, m: nat, cfg: D.Settings)
    requires Alike(s, s', t, t', r) && n <= s.reqs[r].visit && Split(s, t, r, n, m, cfg)
    ensures Split(s', t', r, n, m, cfg)
  {
    forall i: nat | i < n ensures Settled(s', t', r, i, cfg) { assert Settled(s, t, r, i, cfg); }
    forall i: nat | i >= m ensures Untouched(s', r, i) { assert Untouched(s, r, i); }
  }

  /** The log of other requests does not matter. */
  lemma OthersLog(log: seq<Logged>, l: Logged, r: nat, n: nat)
    ensures EffectsFor(log + [l], r, n) == EffectsFor(log, r, n) + if l.req == r && l.visit == n then [l] else []
  {
    assert (log + [l])[..|log|] == log;
  }

  /** Any step of somebody else, and any of its own that is not an action inside the section. */
  lemma TrackKept(s: State, s': State, t: Track, r: nat, cfg: D.Settings)
    requires TrackInv(s, t, r, cfg) && (r in s.reqs <==> r in s'.reqs) && (r in s.reqs ==> s'.reqs[r] == s.reqs[r])
    requires forall n: nat :: EffectsFor(s'.log, r, n) == EffectsFor(s.log, r, n)
    ensures TrackInv(s', t, r, cfg)
  {
    forall n: nat | Untouched(s, r, n) ensures Untouched(s', r, n) { }
    if r in s.reqs {
      forall n: nat | Settled(s, t, r, n, cfg) ensures Settled(s', t, r, n, cfg) { }
    }
  }

  /** A record is passed over. */
  lemma TrackPasses(s: State, t: Track, r: nat, cfg: D.Settings)
    requires TrackInv(s, t, r, cfg) && r in s.reqs && Reaches(s.reqs[r])
    requires !Owed(s.reqs[r].filter, s.reqs[r].apply, s.reqs[r].phase.todo[0], s.quarantine, cfg)
    ensures TrackInv(Onward(s, r, s.reqs[r].phase.todo[1..]), t.(seen := t.seen[s.reqs[r].visit := s.quarantine]), r, cfg)
  {
    var q := s.reqs[r];
    var s', t' := Onward(s, r, q.phase.todo[1..]), t.(seen := t.seen[q.visit := s.quarantine]);
    assert q.phase.todo[0] == t.visits.value[q.visit];
    assert Untouched(s, r, q.visit);
    assert Settled(s', t', r, q.visit, cfg);
    SplitLater(s, s', t, t', r, q.visit, q.visit + 1, cfg);
  }

  /** A kill begins. */
  lemma TrackBegins(s: State, t: Track, r: nat, cfg: D.Settings)
    requires TrackInv(s, t, r, cfg) && r in s.reqs && Reaches(s.reqs[r])
    requires Owed(s.reqs[r].filter, s.reqs[r].apply, s.reqs[r].phase.todo[0], s.quarantine, cfg)
    ensures var q := s.reqs[r];
            TrackInv(At(s, r, Killing(q.phase.todo[0], 0, q.phase.todo[1..])), t.(seen := t.seen[q.visit := s.quarantine]), r, cfg)
  {
    var q := s.reqs[r];
    var s', t' := At(s, r, Killing(q.phase.todo[0], 0, q.phase.todo[1..])), t.(seen := t.seen[q.visit := s.quarantine]);
    assert q.phase.todo[0] == t.visits.value[q.visit];
    assert Untouched(s, r, q.visit);
    assert Whole(r, q.visit, q.filter, q.apply, q.phase.todo[0], 0) == [];
    SplitLater(s, s', t, t', r, q.visit, q.visit + 1, cfg);
  }

  lemma WholeNext(r: nat, n: nat, filter: string, apply: bool, v: Visit, m: nat)
    ensures Whole(r, n, filter, apply, v, m + 1) == Whole(r, n, filter, apply, v, m) + [Logged(r, n, filter, apply, v, m)]
  {
  }

  /** One more effect. */
  lemma TrackEffect(s: State, s': State, t: Track, r: nat, cfg: D.Settings)
    requires TrackInv(s, t, r, cfg) && r in s.reqs && s.reqs[r].phase.Killing? && s.reqs[r].phase.next < |Effects(s.reqs[r].phase.v)|
    requires var q := s.reqs[r];
             && s'.log == s.log + [Logged(r, q.visit, q.filter, q.apply, q.phase.v, q.phase.next)]
             && r in s'.reqs && s'.reqs[r] == q.(phase := Killing(q.phase.v, q.phase.next + 1, q.phase.todo))
    ensures TrackInv(s', t, r, cfg)
  {
    var q := s.reqs[r];
    var l := Logged(r, q.visit, q.filter, q.apply, q.phase.v, q.phase.next);
    forall n: nat ensures EffectsFor(s'.log, r, n) == EffectsFor(s.log, r, n) + if n == q.visit then [l] else [] {
      OthersLog(s.log, l, r, n);
    }
    WholeNext(r, q.visit, q.filter, q.apply, q.phase.v, q.phase.next);
    forall n: nat | n < q.visit ensures Settled(s', t, r, n, cfg) { assert Settled(s, t, r, n, cfg); }
    forall n: nat | n > q.visit ensures Untouched(s', r, n) { assert Untouched(s, r, n); }
  }

  /** The kill is done: on to the quarantine, or to the next record. */
  lemma TrackDone(s: State, s': State, t: Track, r: nat, cfg: D.Settings)
    requires TrackInv(s, t, r, cfg) && r in s.reqs && r in s'.reqs && s'.log == s.log
    requires (s.reqs[r].phase.Killing? && s.reqs[r].phase.next >= |Effects(s.reqs[r].phase.v)|) || s.reqs[r].phase.Quarantining?
    requires var q := s.reqs[r];
             || s'.reqs[r] == q.(phase := Scanning(q.phase.todo), visit := q.visit + 1)
             || (q.phase.Killing? && s'.reqs[r] == q.(phase := Quarantining(q.phase.v, q.phase.todo)))
    ensures TrackInv(s', t, r, cfg)
  {
    var q := s.reqs[r];
    assert Settled(s', t, r, q.visit, cfg);
    SplitLater(s, s', t, t, r, q.visit, q.visit + 1, cfg);
  }

  /** The request enters the section, or leaves it. */
  lemma TrackMoves(s: State, s': State, t: Track, t': Track, r: nat, cfg: D.Settings)
    requires TrackInv(s, t, r, cfg) && r in s.reqs && r in s'.reqs && s'.log == s.log
    requires s'.reqs[r] == s.reqs[r].(phase := s'.reqs[r].phase)
    requires var p, p' := s.reqs[r].phase, s'.reqs[r].phase;
             || ((p.WaitGlobal? || p.WaitKey?) && t' == t && (p'.WaitKey? || p'.LeavingGlobal? || p'.Finished?))
             || ((p.WaitGlobal? || p.WaitKey?) && p'.Scanning? && t' == t.(visits := Some(p'.todo)))
             || ((p == Scanning([]) || p.LeavingGlobal? || p.Finished?) && (p'.LeavingGlobal? || p'.Finished?) && t' == t)
    ensures TrackInv(s', t', r, cfg)
  {
    var q, p' := s.reqs[r], s'.reqs[r].phase;
    if p'.Scanning? { assert p'.todo[0..] == p'.todo; }
    forall n: nat | Untouched(s, r, n) ensures Untouched(s', r, n) { }
    forall n: nat | Settled(s, t, r, n, cfg) ensures t' == t ==> Settled(s', t', r, n, cfg) { }
  }

  /** What `Go` does to the request itself, phase by phase. */
  lemma TrackGo(s: State, r: nat, visits: seq<Visit>, t: Track, cfg: D.Settings)
    requires TrackInv(s, t, r, cfg) && Enabled(s, Go(r, visits))
    ensures TrackInv(StepGo(s, r, visits, cfg), Tracked(s, Go(r, visits), r, t), r, cfg)
  {
    var q, s', t' := s.reqs[r], StepGo(s, r, visits, cfg), Tracked(s, Go(r, visits), r, t);
    match q.phase
    case Scanning(todo) =>
      if todo == [] {
        TrackMoves(s, s', t, t', r, cfg);
      } else if Owed(q.filter, q.apply, todo[0], s.quarantine, cfg) {
        TrackBegins(s, t, r, cfg);
      } else {
        TrackPasses(s, t, r, cfg);
      }
    case Killing(v, n, todo) =>
      if n < |Effects(v)| { EffectFacts(s, r, cfg); TrackEffect(s, s', t, r, cfg); } else { TrackDone(s, s', t, r, cfg); }
    case Quarantining(v, todo) => TrackDone(s, s', t, r, cfg);
    case _ => TrackMoves(s, s', t, t', r, cfg);
  }

  /** Somebody else's action adds nothing to this request's log. */
  lemma GoElsewhere(s: State, j: nat, visits: seq<Visit>, r: nat, cfg: D.Settings)
    requires Enabled(s, Go(j, visits)) && j != r
    ensures var s' := StepGo(s, j, visits, cfg);
            && (r in s.reqs <==> r in s'.reqs) && (r in s.reqs ==> s'.reqs[r] == s.reqs[r])
            && forall n: nat :: EffectsFor(s'.log, r, n) == EffectsFor(s.log, r, n)
  {
    var s' := StepGo(s, j, visits, cfg);
    if s'.log != s.log {
      var l := s'.log[|s.log|];
      assert s'.log == s.log + [l] && l.req == j;
      forall n: nat ensures EffectsFor(s'.log, r, n) == EffectsFor(s.log, r, n) { OthersLog(s.log, l, r, n); }
    }
  }

  lemma TrackArrives(s: State, r: nat, filter: string, apply: bool, t: Track, cfg: D.Settings)
    requires TrackInv(s, t, r, cfg) && Enabled(s, Arrive(r, filter, apply))
    ensures TrackInv(Step(s, Arrive(r, filter, apply), cfg), t, r, cfg)
  {
    var s' := Step(s, Arrive(r, filter, apply), cfg);
    forall n: nat ensures Untouched(s', r, n) { assert Untouched(s, r, n); }
  }

  lemma TrackStep(s: State, e: Event, r: nat, t: Track, cfg: D.Settings)
    requires TrackInv(s, t, r, cfg) && Enabled(s, e)
    ensures TrackInv(Step(s, e, cfg), Tracked(s, e, r, t), r, cfg)
  {
    match e
    case Go(j, visits) =>
      if j == r { TrackGo(s, r, visits, t, cfg); } else {
        GoElsewhere(s, j, visits, r, cfg);
        TrackKept(s, StepGo(s, j, visits, cfg), t, r, cfg);
      }
    case Arrive(j, filter, apply) =>
      if j == r { TrackArrives(s, r, filter, apply, t, cfg); } else { TrackKept(s, Step(s, e, cfg), t, r, cfg); }
    case Abandon(j) =>
      if j == r { TrackMoves(s, Step(s, e, cfg), t, t, r, cfg); } else { TrackKept(s, Step(s, e, cfg), t, r, cfg); }
    case _ => TrackKept(s, Step(s, e, cfg), t, r, cfg);
  }

  lemma {:induction false} TrackReachable(s0: State, evs: seq<Event>, r: nat, cfg: D.Settings)
    requires Initial(s0)
    ensures TrackInv(Exec(s0, evs, cfg), TrackOf(s0, evs, cfg, r), r, cfg)
  {
    if evs != [] {
      var front, e := evs[..|evs| - 1], evs[|evs| - 1];
      TrackReachable(s0, front, r, cfg);
      if Enabled(Exec(s0, front, cfg), e) { TrackStep(Exec(s0, front, cfg), e, r, TrackOf(s0, front, cfg, r), cfg); }
    }
  }

  // ---------------------------------------------------------------------------------------------
  // What follows
  // ---------------------------------------------------------------------------------------------

  /**
   * A sweep kills exactly what it should.  When a request that was given `visits` has left the section, it
   * has reached every one of them; and for each, the log holds all effects of its kill, in order and each
   * once, if the request applies, its filter admits the record, the key was not in quarantine when it was
   * reached, the broker has no active work, no recent delivery and no live owner and has been idle for
   * long enough, and an unfiltered request does not meet a foreign broker.  Otherwise it holds none.
   */
  lemma ScanIsComplete(s0: State, evs: seq<Event>, cfg: D.Settings, r: nat, n: nat)
    requires Initial(s0) && r in Exec(s0, evs, cfg).reqs && !Inside(Exec(s0, evs, cfg).reqs[r].phase)
    requires TrackOf(s0, evs, cfg, r).visits.Some? && n < |TrackOf(s0, evs, cfg, r).visits.value|
    ensures var q, t, log := Exec(s0, evs, cfg).reqs[r], TrackOf(s0, evs, cfg, r), Exec(s0, evs, cfg).log;
            var v := t.visits.value[n];
            && n in t.seen
            && var kill := && q.apply && (q.filter == "" || v.broker.key == q.filter) && !IsQuarantined(t.seen[n], v.broker.key)
                           && !D.ActiveWork(v.broker, v.world) && !D.RecentDelivery(v.broker, v.world, D.ResultWindow(cfg))
                           && !D.LiveOwner(v.broker, v.world) && D.IdleExpired(v.broker, v.world.now, cfg)
                           && (q.filter != "" || !D.Foreign(v.broker, v.world));
               && |EffectsFor(log, r, n)| == (if kill then |Effects(v)| else 0)
               && forall m :: 0 <= m < |EffectsFor(log, r, n)| ==> EffectsFor(log, r, n)[m] == Logged(r, n, q.filter, q.apply, v, m)
  {
    TrackReachable(s0, evs, r, cfg);
    assert Settled(Exec(s0, evs, cfg), TrackOf(s0, evs, cfg, r), r, n, cfg);
  }

  /** A request that never entered the section, and any visit beyond those it was given, leave no effects. */
  lemma NothingBeyondTheScan(s0: State, evs: seq<Event>, cfg: D.Settings, r: nat, n: nat)
    requires Initial(s0)
    requires TrackOf(s0, evs, cfg, r).visits.Some? ==> n >= |TrackOf(s0, evs, cfg, r).visits.value|
    ensures EffectsFor(Exec(s0, evs, cfg).log, r, n) == []
  {
    TrackReachable(s0, evs, r, cfg);
    assert Untouched(Exec(s0, evs, cfg), r, n);
  }

  function LeftIn(todo: seq<Visit>): nat {
    if todo == [] then 0 else |Effects(todo[0])| + 3 + LeftIn(todo[1..])
  }

  /** An upper bound on the actions that a request takes before it leaves the section. */
  function Left(p: Phase): nat {
    match p
    case Scanning(todo) => 1 + LeftIn(todo)
    case Killing(v, n, todo) => (if n < |Effects(v)| then |Effects(v)| - n else 0) + 3 + LeftIn(todo)
    case Quarantining(v, todo) => 2 + LeftIn(todo)
    case _ => 0
  }

  /** Inside the section a request can always act, and each of its actions brings it closer to the end. */
  lemma ScanGoesOn(s: State, r: nat, visits: seq<Visit>, cfg: D.Settings)
    requires r in s.reqs && Inside(s.reqs[r].phase)
    ensures Enabled(s, Go(r, visits))
    ensures Left(StepGo(s, r, visits, cfg).reqs[r].phase) < Left(s.reqs[r].phase)
  {
  }

  /** After a failed identity check the key is in quarantine once the request has left the section. */
  lemma FailureQuarantines(s0: State, evs: seq<Event>, cfg: D.Settings, i: nat)
    requires Initial(s0) && i < |Exec(s0, evs, cfg).log| && FailedAt(Exec(s0, evs, cfg).log[i])
    requires var s := Exec(s0, evs, cfg); s.log[i].req in s.reqs ==> !Inside(s.reqs[s.log[i].req].phase)
    ensures IsQuarantined(Exec(s0, evs, cfg).quarantine, Exec(s0, evs, cfg).log[i].v.broker.key)
  {
    KillsReachable(s0, evs, cfg);
    assert Pending(Exec(s0, evs, cfg), Exec(s0, evs, cfg).log[i]);
  }
}
