/**
 * Whether a broker may be killed: no active work (A), no recent readable delivery (B), no live owner
 * (C), and idle for long enough; and whether it is foreign, which is a separate question.
 *
 * What the outside world answers during one evaluation is a parameter.
 */
module Decision {
  import opened Basics
  import opened Processes

  const STALE_RUNNING_THRESHOLD: int := 3600 * SECOND
  const DEFAULT_RESULT_WINDOW: int := 1800 * SECOND
  const DEFAULT_IDLE_TIMEOUT: int := 1800 * SECOND

  datatype Anomaly = CwdMissing | CwdTransientStatError | ForeignOwner | StateJSONUnreadable | OtherAnomaly

  datatype Broker = Broker(key: string, endpoint: string, stateDir: string, cwd: string, cwdExists: bool,
                           anomalies: seq<Anomaly>, lastJobUpdatedAt: Option<Moment>)

  datatype Job = Job(id: string, status: string, pid: Option<int>, updatedAt: Moment, completedAt: Option<Moment>)

  datatype Stat = Exists | NotFound | StatFails

  /**
   * `threads` are the thread statuses the broker reports, None when it cannot be asked; `jobs` is empty
   * when the state file cannot be read; `registry` maps broker keys to panes; `panes` says which panes
   * are alive, None for a pane whose check fails.
   */
  datatype World = World(now: Moment, dialer: bool, threads: Option<seq<string>>, jobs: seq<Job>, rows: Listing,
                         fs: bool, readable: set<string>, cwdStat: Stat, registry: Option<map<string, string>>,
                         panes: Option<map<string, Option<bool>>>)

  /** Non-positive settings select the defaults. */
  datatype Settings = Settings(idleTimeout: int, resultWindow: int)

  function Lower(s: string): (r: string)
    ensures |r| == |s|
  {
    seq(|s|, i requires 0 <= i < |s| => if 'A' <= s[i] <= 'Z' then s[i] + 32 as char else s[i])
  }

  predicate IsActiveStatus(s: string) {
    var l := Lower(s);
    l == "active" || l == "running" || l == "pending" || l == "pending_approval" || l == "approval_required"
  }

  // ---------------------------------------------------------------------------------------------
  // A: active execution
  // ---------------------------------------------------------------------------------------------

  /** A running job that nobody can be seen to run: its process is gone or is not a broker's, or it has no
      process and has been silent too long.  A failed listing counts as gone. */
  predicate IsStaleRunning(job: Job, rows: Listing, now: Moment) {
    && job.status == "running"
    && if job.pid.None? then Sub(now, job.updatedAt) > STALE_RUNNING_THRESHOLD
       else
         || rows.None?
         || var row := FirstWithPid(rows.value, job.pid.value);
            row.None? || !Contains(row.value.cmdline, BROKER_MARKER)
  }

  predicate SeesActiveThread(b: Broker, w: World) {
    w.dialer && "unix:" <= b.endpoint && w.threads.Some? && exists t :: t in w.threads.value && IsActiveStatus(t)
  }

  predicate KeepsAlive(job: Job, w: World) {
    job.status == "queued" || (job.status == "running" && !IsStaleRunning(job, w.rows, w.now))
  }

  predicate ActiveWork(b: Broker, w: World) {
    SeesActiveThread(b, w) || exists j :: j in w.jobs && KeepsAlive(j, w)
  }

  method TryThreadList(b: Broker, w: World) returns (rpcOK: bool, sawActive: bool)
    ensures sawActive <==> SeesActiveThread(b, w)
    ensures sawActive ==> rpcOK
  {
    if !w.dialer || b.endpoint == "" { return false, false; }
    if !("unix:" <= b.endpoint) { return false, false; }
    if w.threads.None? { return false, false; }
    var threads := w.threads.value;
    for i := 0 to |threads|
      invariant forall k :: 0 <= k < i ==> !IsActiveStatus(threads[k])
    {
      if IsActiveStatus(threads[i]) { return true, true; }
    }
    return true, false;
  }

  method EvalPredicateA(b: Broker, w: World) returns (holds: bool)
    ensures holds <==> ActiveWork(b, w)
  {
    var rpcOK, sawActive := TryThreadList(b, w);
    if sawActive { return true; }
    for i := 0 to |w.jobs|
      invariant forall k :: 0 <= k < i ==> !KeepsAlive(w.jobs[k], w)
    {
      var job := w.jobs[i];
      if job.status == "queued" { assert KeepsAlive(job, w); return true; }
      if job.status == "running" {
        if !IsStaleRunning(job, w.rows, w.now) { assert KeepsAlive(job, w); return true; }
      }
    }
    return false;
  }

  // ---------------------------------------------------------------------------------------------
  // B: recent delivery, C: live ownership
  // ---------------------------------------------------------------------------------------------

  predicate Delivered(job: Job, w: World, window: int) {
    job.status == "completed" && job.completedAt.Some? && Sub(w.now, job.completedAt.value) <= window
    && job.id in w.readable
  }

  predicate RecentDelivery(b: Broker, w: World, window: int) {
    b.stateDir != "" && w.fs && exists j :: j in w.jobs && Delivered(j, w, window)
  }

  method EvalPredicateB(b: Broker, w: World, window: int) returns (holds: bool)
    ensures holds <==> RecentDelivery(b, w, window)
  {
    if b.stateDir == "" || !w.fs { return false; }
    for i := 0 to |w.jobs|
      invariant forall k :: 0 <= k < i ==> !Delivered(w.jobs[k], w, window)
    {
      var job := w.jobs[i];
      if job.status != "completed" || job.completedAt.None? { continue; }
      if Sub(w.now, job.completedAt.value) > window { continue; }
      if job.id in w.readable { assert Delivered(job, w, window); return true; }
    }
    return false;
  }

  /** The working directory is known to be gone. */
  predicate CwdGone(b: Broker, w: World) {
    || CwdMissing in b.anomalies
    || (!b.cwdExists && CwdTransientStatError !in b.anomalies && b.cwd != "" && w.fs && w.cwdStat == NotFound)
  }

  /** The broker is registered to a pane, and that pane is known to be alive. */
  predicate LiveOwner(b: Broker, w: World) {
    && !CwdGone(b, w)
    && w.registry.Some? && b.key in w.registry.value && w.registry.value[b.key] != ""
    && w.panes.Some? && w.registry.value[b.key] in w.panes.value
    && w.panes.value[w.registry.value[b.key]] == Some(true)
  }

  method EvalPredicateC(b: Broker, w: World) returns (holds: bool)
    ensures holds <==> LiveOwner(b, w)
  {
    if CwdMissing in b.anomalies { return false; }
    if !b.cwdExists && CwdTransientStatError !in b.anomalies {
      if b.cwd != "" && w.fs {
        if w.cwdStat == NotFound { return false; }
      }
    }
    if w.registry.None? || b.key !in w.registry.value { return false; }
    var pane := w.registry.value[b.key];
    if pane == "" || w.panes.None? || pane !in w.panes.value { return false; }
    var alive := w.panes.value[pane];
    if alive.None? { return false; }
    return alive.value;
  }

  // ---------------------------------------------------------------------------------------------
  // Idle time
  // ---------------------------------------------------------------------------------------------

  /** Whole seconds, towards zero. */
  function WholeSeconds(d: int): int {
    if d < 0 then -((-d) / SECOND) else d / SECOND
  }

  function IdleSeconds(b: Broker, now: Moment): int {
    if b.lastJobUpdatedAt.None? then -1 else WholeSeconds(Sub(now, b.lastJobUpdatedAt.value))
  }

  function IdleTimeout(s: Settings): (t: int)
    ensures t > 0
  {
    if s.idleTimeout <= 0 then DEFAULT_IDLE_TIMEOUT else s.idleTimeout
  }

  predicate IdleExpired(b: Broker, now: Moment, s: Settings) {
    var idle := IdleSeconds(b, now);
    idle < 0 || idle * SECOND >= IdleTimeout(s)
  }

  /**
   * When a broker counts as idle: it never ran a job; or its last job is at least the timeout old, in
   * whole seconds; or its last job is stamped a second or more in the future, because a negative idle
   * time is read as "never ran a job".
   */
  lemma IdleExpiredExactly(b: Broker, now: Moment, s: Settings)
    requires IdleTimeout(s) <= MAX_DURATION - SECOND
    ensures IdleExpired(b, now, s) <==>
            || b.lastJobUpdatedAt.None?
            || now - b.lastJobUpdatedAt.value >= (IdleTimeout(s) + SECOND - 1) / SECOND * SECOND
            || b.lastJobUpdatedAt.value - now >= SECOND
  {
  }

  // ---------------------------------------------------------------------------------------------
  // The decision
  // ---------------------------------------------------------------------------------------------

  datatype Reason = NoReason | IdleReason | ForeignQuarantine | ManualOverride

  datatype Verdict = Verdict(a: bool, b: bool, c: bool, kill: bool, reason: Reason, anomaliesAdded: seq<Anomaly>)

  predicate Killable(b: Broker, w: World, s: Settings) {
    !ActiveWork(b, w) && !RecentDelivery(b, w, ResultWindow(s)) && !LiveOwner(b, w) && IdleExpired(b, w.now, s)
  }

  function ResultWindow(s: Settings): int {
    if s.resultWindow <= 0 then DEFAULT_RESULT_WINDOW else s.resultWindow
  }

  /** Not in the launch registry, or already marked by the inventory. */
  predicate Foreign(b: Broker, w: World) {
    w.registry.None? || b.key !in w.registry.value || ForeignOwner in b.anomalies
  }

  /** Being foreign names the reason but never changes whether the broker is killable. */
  method EvalDecision(b: Broker, w: World, s: Settings, jobsReadable: bool) returns (v: Verdict)
    ensures v.kill <==> Killable(b, w, s)
    ensures v.reason == ForeignQuarantine <==> Foreign(b, w)
    ensures v.reason == IdleReason <==> v.kill && !Foreign(b, w)
    ensures v.reason != ManualOverride
    ensures v.a == ActiveWork(b, w) && v.b == RecentDelivery(b, w, ResultWindow(s)) && v.c == LiveOwner(b, w)
    ensures ForeignOwner in b.anomalies + v.anomaliesAdded <==> Foreign(b, w)
    ensures !jobsReadable ==> StateJSONUnreadable in b.anomalies + v.anomaliesAdded
    ensures forall x :: x in v.anomaliesAdded ==> x !in b.anomalies && (x == ForeignOwner || (x == StateJSONUnreadable && !jobsReadable))
  {
    var added: seq<Anomaly> := [];
    if !jobsReadable && StateJSONUnreadable !in b.anomalies { added := [StateJSONUnreadable]; }
    var a := EvalPredicateA(b, w);
    var window := if s.resultWindow <= 0 then DEFAULT_RESULT_WINDOW else s.resultWindow;
    var recent := EvalPredicateB(b, w, window);
    var c := EvalPredicateC(b, w);
    var kill := !a && !recent && !c && IdleExpired(b, w.now, s);
    var isForeign := w.registry.None? || |w.registry.value| == 0 || b.key !in w.registry.value;
    var reason := NoReason;
    if isForeign || ForeignOwner in b.anomalies {
      if ForeignOwner !in b.anomalies { added := added + [ForeignOwner]; }
      reason := ForeignQuarantine;
    } else if kill {
      reason := IdleReason;
    }
    v := Verdict(a, recent, c, kill, reason, added);
  }

  /** The letters of a lower-case word, each in either case. */
  predicate Spells(s: string, word: string) {
    |s| == |word| && forall i :: 0 <= i < |s| ==> s[i] == word[i] || ('a' <= word[i] <= 'z' && s[i] as int == word[i] as int - 32)
  }

  /** The statuses of a thread that count as activity, in any case of letters. */
  lemma ActiveInAnyCase(s: string)
    ensures IsActiveStatus(s)
       <==> Spells(s, "active") || Spells(s, "running") || Spells(s, "pending") || Spells(s, "pending_approval")
            || Spells(s, "approval_required")
  {
    LowerSpells(s, "active");
    LowerSpells(s, "running");
    LowerSpells(s, "pending");
    LowerSpells(s, "pending_approval");
    LowerSpells(s, "approval_required");
  }

  lemma LowerSpells(s: string, word: string)
    requires forall i :: 0 <= i < |word| ==> 'a' <= word[i] <= 'z' || word[i] == '_'
    ensures Lower(s) == word <==> Spells(s, word)
  {
    if Spells(s, word) { assert Lower(s) == word; }
    if Lower(s) == word {
      forall i | 0 <= i < |s| ensures s[i] == word[i] || ('a' <= word[i] <= 'z' && s[i] as int == word[i] as int - 32) {
        assert Lower(s)[i] == word[i];
      }
    }
  }

  /** The job leaves the broker quiet: neither waiting, nor visibly running, nor freshly delivered. */
  predicate Rests(j: Job, b: Broker, w: World, s: Settings) {
    && j.status != "queued"
    && (j.status == "running" ==>
          if j.pid.None? then w.now - j.updatedAt > STALE_RUNNING_THRESHOLD
          else w.rows.Some? ==> var row := FirstWithPid(w.rows.value, j.pid.value);
                                row.None? || !Contains(row.value.cmdline, BROKER_MARKER))
    && (j.status == "completed" && j.completedAt.Some? && j.id in w.readable && b.stateDir != "" && w.fs ==>
          w.now - j.completedAt.value > ResultWindow(s))
  }

  /** A registered pane that is known alive, with a working directory that is not known to be gone. */
  predicate HasOwner(b: Broker, w: World) {
    && w.registry.Some? && w.panes.Some?
    && (exists pane :: pane in w.panes.value && w.panes.value[pane] == Some(true) && pane != ""
                       && b.key in w.registry.value && w.registry.value[b.key] == pane)
    && CwdMissing !in b.anomalies
    && (b.cwdExists || CwdTransientStatError in b.anomalies || b.cwd == "" || !w.fs || w.cwdStat != NotFound)
  }

  /**
   * The verdict by its evidence: a broker may be killed exactly when it reports no active thread, every one
   * of its jobs rests, no live pane owns it, and its last job is old enough, or absent, or stamped a second
   * or more ahead.
   */
  lemma KillableExactly(b: Broker, w: World, s: Settings)
    requires ResultWindow(s) < MAX_DURATION && IdleTimeout(s) <= MAX_DURATION - SECOND
    ensures Killable(b, w, s)
       <==> && !(w.dialer && "unix:" <= b.endpoint && w.threads.Some? && exists t :: t in w.threads.value && IsActiveStatus(t))
            && (forall j :: j in w.jobs ==> Rests(j, b, w, s))
            && !HasOwner(b, w)
            && (|| b.lastJobUpdatedAt.None?
                || w.now - b.lastJobUpdatedAt.value >= (IdleTimeout(s) + SECOND - 1) / SECOND * SECOND
                || b.lastJobUpdatedAt.value - w.now >= SECOND)
  {
    IdleExpiredExactly(b, w.now, s);
    OwnerExactly(b, w);
    forall j | j in w.jobs
      ensures Rests(j, b, w, s) <==> !KeepsAlive(j, w) && !(b.stateDir != "" && w.fs && Delivered(j, w, ResultWindow(s)))
    {
      RestsExactly(j, b, w, s);
    }
  }

  lemma OwnerExactly(b: Broker, w: World)
    ensures LiveOwner(b, w) <==> HasOwner(b, w)
  {
    if LiveOwner(b, w) {
      var pane := w.registry.value[b.key];
      assert pane != "" && w.panes.value[pane] == Some(true);
    }
  }

  lemma RestsExactly(j: Job, b: Broker, w: World, s: Settings)
    requires ResultWindow(s) < MAX_DURATION
    ensures Rests(j, b, w, s) <==> !KeepsAlive(j, w) && !(b.stateDir != "" && w.fs && Delivered(j, w, ResultWindow(s)))
  {
  }

  /** What a kill verdict says about the evidence, job by job. */
  lemma KillableMeansQuiet(b: Broker, w: World, s: Settings, j: Job)
    requires Killable(b, w, s) && j in w.jobs && ResultWindow(s) < MAX_DURATION
    ensures j.status != "queued"
    ensures j.status == "running" && j.pid.None? ==> w.now - j.updatedAt > STALE_RUNNING_THRESHOLD
    ensures j.status == "running" && j.pid.Some? && w.rows.Some? ==>
              var row := FirstWithPid(w.rows.value, j.pid.value);
              row.None? || !Contains(row.value.cmdline, BROKER_MARKER)
    ensures j.status == "completed" && j.completedAt.Some? && j.id in w.readable && b.stateDir != "" && w.fs ==>
              w.now - j.completedAt.value > ResultWindow(s)
  {
    assert !KeepsAlive(j, w);
    if b.stateDir != "" && w.fs { assert !Delivered(j, w, ResultWindow(s)); }
  }
}
