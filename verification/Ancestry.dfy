/**
 * The bounded walk up a sender's parent processes that decides whether its session start belongs to
 * another agent's frame, and the downward check that confirms a descendant before it is folded.
 */
module Ancestry {
  import opened Basics

  const PROXY_MAX_DEPTH: nat := 5

  datatype Frame = Frame(pid: int, startTime: string, agentType: string, startedAt: int)

  /**
   * One reading of the machine: parent pids (absent where the read fails), the pane's frames, the
   * live pids, and start times (absent where the read fails).
   */
  datatype World = World(parents: map<int, int>, frames: seq<Frame>, alive: set<int>, starts: map<int, string>)

  datatype Verdict = Root | SameTypeAbove | ProxyParent | Indeterminate

  /** The pane's newest frame for a pid. */
  function FindByPanePID(frames: seq<Frame>, pid: int): (f: Option<Frame>)
    ensures f.None? <==> forall x :: x in frames ==> x.pid != pid
    ensures f.Some? ==> f.value in frames && f.value.pid == pid
                        && forall x :: x in frames && x.pid == pid ==> x.startedAt <= f.value.startedAt
  {
    if frames == [] then None
    else
      var rest := FindByPanePID(frames[1..], pid);
      if frames[0].pid != pid || (rest.Some? && rest.value.startedAt > frames[0].startedAt) then rest else Some(frames[0])
  }

  /** The frame is of a living process whose start time could be read and matches. */
  predicate LiveFrame(w: World, f: Frame) {
    f.pid in w.alive && f.pid in w.starts && w.starts[f.pid] == f.startTime
  }

  /** A live candidate whose start time cannot be read stops the walk. */
  predicate Unverifiable(w: World, f: Frame) {
    f.pid in w.alive && f.pid !in w.starts
  }

  datatype Walked = Walked(verdict: Verdict, frame: Option<Frame>, hops: nat)

  /** The walk from `pid` with `fuel` levels left; `hops` counts the levels climbed. */
  function Walk(w: World, pid: int, agentType: string, fuel: nat): Walked
    decreases fuel
  {
    if fuel == 0 then Walked(Indeterminate, None, 0)
    else if pid <= 1 then Walked(Root, None, 0)
    else
      var f := FindByPanePID(w.frames, pid);
      if f.Some? && Unverifiable(w, f.value) then Walked(Indeterminate, None, 0)
      else if f.Some? && LiveFrame(w, f.value) then
        Walked(if f.value.agentType == agentType then SameTypeAbove else ProxyParent, f, 0)
      else if pid !in w.parents || w.parents[pid] == pid then Walked(Indeterminate, None, 0)
      else
        var up := Walk(w, w.parents[pid], agentType, fuel - 1);
        up.(hops := up.hops + 1)
  }

  /** The pids that the walk looks at, nearest first. */
  function Visited(w: World, pid: int, agentType: string, fuel: nat): seq<int>
    decreases fuel
  {
    if fuel == 0 then []
    else if StopsAt(w, pid) then [pid]
    else [pid] + Visited(w, w.parents[pid], agentType, fuel - 1)
  }

  predicate StopsAt(w: World, pid: int) {
    || pid <= 1
    || (var f := FindByPanePID(w.frames, pid); f.Some? && (Unverifiable(w, f.value) || LiveFrame(w, f.value)))
    || pid !in w.parents || w.parents[pid] == pid
  }

  datatype Opts = Opts(panePID: int, checkPane: bool)

  /** One level up: the verdict is the parent's, and this pid is the first one visited. */
  lemma WalkUp(w: World, pid: int, agentType: string, fuel: nat)
    requires fuel > 0 && !StopsAt(w, pid)
    ensures var r, up := Walk(w, pid, agentType, fuel), Walk(w, w.parents[pid], agentType, fuel - 1);
            r.verdict == up.verdict && r.frame == up.frame
    ensures Visited(w, pid, agentType, fuel) == [pid] + Visited(w, w.parents[pid], agentType, fuel - 1)
  {
  }

  lemma WalkEnds(w: World, pid: int, agentType: string, fuel: nat)
    requires fuel > 0 && StopsAt(w, pid)
    ensures Walk(w, pid, agentType, fuel) == Walk(w, pid, agentType, 1) && Visited(w, pid, agentType, fuel) == [pid]
  {
  }

  /** One level of the loop: the answer, if the walk ends here. */
  method Look(w: World, ppid: int, agentType: string) returns (r: Option<Walked>)
    ensures r.Some? <==> StopsAt(w, ppid)
    ensures r.Some? ==> r.value == Walk(w, ppid, agentType, 1)
  {
    if ppid <= 1 { return Some(Walked(Root, None, 0)); }
    var candidate := FindByPanePID(w.frames, ppid);
    if candidate.Some? && candidate.value.pid in w.alive {
      if candidate.value.pid !in w.starts { return Some(Walked(Indeterminate, None, 0)); }
      if w.starts[candidate.value.pid] == candidate.value.startTime {
        if candidate.value.agentType == agentType { return Some(Walked(SameTypeAbove, candidate, 0)); }
        return Some(Walked(ProxyParent, candidate, 0));
      }
    }
    if ppid !in w.parents || w.parents[ppid] == ppid { return Some(Walked(Indeterminate, None, 0)); }
    r := None;
  }

  /** From `pid` on, with what was seen so far, the walk will end as it would have from the start. */
  ghost predicate OnTheWay(w: World, start: int, agentType: string, opts: Opts, pid: int, fuel: nat, saw: bool) {
    var r, r' := Walk(w, start, agentType, PROXY_MAX_DEPTH), Walk(w, pid, agentType, fuel);
    && r.verdict == r'.verdict && r.frame == r'.frame
    && (opts.checkPane && opts.panePID in Visited(w, start, agentType, PROXY_MAX_DEPTH)
        <==> saw || (opts.checkPane && opts.panePID in Visited(w, pid, agentType, fuel)))
  }

  /**
   * The walk itself.  Asking whether the pane's own process was seen on the way changes neither the
   * verdict nor the frame.
   */
  method WalkPaneAncestry(w: World, startPID: int, agentType: string, opts: Opts)
    returns (verdict: Verdict, frame: Option<Frame>, sawPanePID: bool)
    ensures var r := Walk(w, startPID, agentType, PROXY_MAX_DEPTH); verdict == r.verdict && frame == r.frame
    ensures sawPanePID <==> opts.checkPane && opts.panePID in Visited(w, startPID, agentType, PROXY_MAX_DEPTH)
  {
    sawPanePID := false;
    var ppid := startPID;
    var depth := 0;
    while depth < PROXY_MAX_DEPTH
      invariant 0 <= depth <= PROXY_MAX_DEPTH
      invariant OnTheWay(w, startPID, agentType, opts, ppid, PROXY_MAX_DEPTH - depth, sawPanePID)
    {
      if opts.checkPane && ppid == opts.panePID { sawPanePID := true; }
      var here := Look(w, ppid, agentType);
      if here.Some? {
        WalkEnds(w, ppid, agentType, PROXY_MAX_DEPTH - depth);
        return here.value.verdict, here.value.frame, sawPanePID;
      }
      WalkUp(w, ppid, agentType, PROXY_MAX_DEPTH - depth);
      ppid := w.parents[ppid];
      depth := depth + 1;
    }
    return Indeterminate, None, sawPanePID;
  }

  /** The walk for a sender starts one level up. */
  function Classify(w: World, sender: int, agentType: string): Walked {
    if sender !in w.parents then Walked(Indeterminate, None, 0)
    else Walk(w, w.parents[sender], agentType, PROXY_MAX_DEPTH)
  }

  /** How many levels above `pid` the process `anc` is found within `fuel` levels. */
  function Above(w: World, pid: int, anc: int, fuel: nat): Option<nat>
    decreases fuel
  {
    if fuel == 0 || pid !in w.parents then None
    else if w.parents[pid] == anc then Some(0)
    else if w.parents[pid] <= 1 || w.parents[pid] == pid then None
    else
      var up := Above(w, w.parents[pid], anc, fuel - 1);
      if up.None? then None else Some(up.value + 1)
  }

  method PidIsAncestorOfWithCap(w: World, descendantPID: int, ancestorPID: int, maxDepth: nat) returns (hit: bool)
    ensures hit <==> Above(w, descendantPID, ancestorPID, maxDepth).Some?
  {
    var current := descendantPID;
    for depth := 0 to maxDepth
      invariant Above(w, descendantPID, ancestorPID, maxDepth).Some? <==> Above(w, current, ancestorPID, maxDepth - depth).Some?
    {
      if current !in w.parents { return false; }
      var ppid := w.parents[current];
      if ppid == ancestorPID { return true; }
      if ppid <= 1 || ppid == current { return false; }
      current := ppid;
    }
    return false;
  }

  // ---------------------------------------------------------------------------------------------
  // What the walk finds, level by level
  // ---------------------------------------------------------------------------------------------

  /** The process `n` levels up, as far as parents can be read. */
  function Climb(w: World, pid: int, n: nat): Option<int>
    decreases n
  {
    if n == 0 then Some(pid) else if pid !in w.parents then None else Climb(w, w.parents[pid], n - 1)
  }

  /** The walk passes through this process: it is no init process, and its newest frame, if any, is dead or another process's. */
  predicate Passed(w: World, pid: int) {
    pid > 1 && var f := FindByPanePID(w.frames, pid);
               f.None? || pid !in w.alive || (pid in w.starts && w.starts[pid] != f.value.startTime)
  }

  /** The walk gets to level `n`. */
  ghost predicate Gets(w: World, pid: int, n: nat) {
    && Climb(w, pid, n).Some?
    && forall m: nat :: m < n ==> Climb(w, pid, m).Some? && Passed(w, Climb(w, pid, m).value)
                                  && Climb(w, pid, m + 1) != Climb(w, pid, m)
  }

  ghost predicate RootAt(w: World, pid: int, n: nat) {
    Gets(w, pid, n) && Climb(w, pid, n).value <= 1
  }

  ghost predicate FoundAt(w: World, pid: int, n: nat, f: Frame) {
    && Gets(w, pid, n) && Climb(w, pid, n).value > 1 && FindByPanePID(w.frames, Climb(w, pid, n).value) == Some(f)
    && f.pid in w.alive && f.pid in w.starts && w.starts[f.pid] == f.startTime
  }

  lemma GetsUp(w: World, pid: int, n: nat)
    requires pid in w.parents && w.parents[pid] != pid && Passed(w, pid)
    ensures Gets(w, pid, n + 1) <==> Gets(w, w.parents[pid], n)
  {
    var up := w.parents[pid];
    assert forall m: nat :: Climb(w, pid, m + 1) == Climb(w, up, m);
    if Gets(w, pid, n + 1) {
      forall m: nat | m < n
        ensures Climb(w, up, m).Some? && Passed(w, Climb(w, up, m).value) && Climb(w, up, m + 1) != Climb(w, up, m)
      {
        assert Climb(w, pid, m + 1).Some? && Climb(w, pid, m + 2) != Climb(w, pid, m + 1);
      }
    }
    if Gets(w, up, n) {
      forall m: nat | m < n + 1
        ensures Climb(w, pid, m).Some? && Passed(w, Climb(w, pid, m).value) && Climb(w, pid, m + 1) != Climb(w, pid, m)
      {
        if m > 0 { assert Climb(w, up, m - 1).Some? && Climb(w, up, m) != Climb(w, up, m - 1); }
      }
    }
  }

  /** A walk that stops at once gets no further. */
  lemma GetsNowhere(w: World, pid: int, n: nat)
    requires !Passed(w, pid) || pid !in w.parents || w.parents[pid] == pid
    ensures Gets(w, pid, n) <==> n == 0
  {
    assert Climb(w, pid, 0) == Some(pid);
    if n > 0 {
      assert pid !in w.parents ==> Climb(w, pid, n).None?;
      assert pid in w.parents && w.parents[pid] == pid ==> Climb(w, pid, 1) == Climb(w, pid, 0);
      assert pid in w.parents && !Passed(w, pid) ==> !Passed(w, Climb(w, pid, 0).value);
    }
  }

  /**
   * Root exactly when, within the levels it may climb, the walk gets to an init process; a frame exactly
   * when it gets to a live process that owns it, the nearest such; and then whether the types agree.
   */
  ghost predicate WalkSays(w: World, pid: int, agentType: string, fuel: nat) {
    var r := Walk(w, pid, agentType, fuel);
    && (r.verdict == Root <==> exists n: nat :: n < fuel && RootAt(w, pid, n))
    && (r.frame.Some? <==> exists n: nat, f :: n < fuel && FoundAt(w, pid, n, f))
    && (r.frame.Some? ==> r.hops < fuel && FoundAt(w, pid, r.hops, r.frame.value))
    && (r.verdict == SameTypeAbove <==> r.frame.Some? && r.frame.value.agentType == agentType)
    && (r.verdict == ProxyParent <==> r.frame.Some? && r.frame.value.agentType != agentType)
  }

  /** What the walk answers, in every case. */
  lemma {:induction false} WalkExactly(w: World, pid: int, agentType: string, fuel: nat)
    ensures WalkSays(w, pid, agentType, fuel)
    decreases fuel
  {
    hide WalkSays;
    if fuel == 0 {
      NoWalk(w, pid, agentType);
    } else if StopsAt(w, pid) {
      WalkStops(w, pid, agentType, fuel);
    } else {
      WalkExactly(w, w.parents[pid], agentType, fuel - 1);
      WalkGoesUp(w, pid, agentType, fuel);
    }
  }

  lemma NoWalk(w: World, pid: int, agentType: string)
    ensures WalkSays(w, pid, agentType, 0)
  {
  }

  lemma WalkGoesUp(w: World, pid: int, agentType: string, fuel: nat)
    requires fuel > 0 && !StopsAt(w, pid) && WalkSays(w, w.parents[pid], agentType, fuel - 1)
    ensures WalkSays(w, pid, agentType, fuel)
  {
    WalkClimbs(w, pid, agentType, fuel);
    hide RootAt, FoundAt;
  }

  lemma WalkStops(w: World, pid: int, agentType: string, fuel: nat)
    requires fuel > 0 && StopsAt(w, pid)
    ensures WalkSays(w, pid, agentType, fuel)
  {
    var r := Walk(w, pid, agentType, fuel);
    forall n: nat ensures Gets(w, pid, n) <==> n == 0 { GetsNowhere(w, pid, n); }
    if r.verdict == Root { assert RootAt(w, pid, 0); }
    if r.frame.Some? { assert FoundAt(w, pid, 0, r.frame.value); }
  }

  lemma WalkClimbs(w: World, pid: int, agentType: string, fuel: nat)
    requires fuel > 0 && !StopsAt(w, pid)
    ensures (exists n: nat :: n < fuel && RootAt(w, pid, n)) <==> exists n: nat :: n < fuel - 1 && RootAt(w, w.parents[pid], n)
    ensures forall n: nat, f :: FoundAt(w, pid, n + 1, f) <==> FoundAt(w, w.parents[pid], n, f)
    ensures forall f :: !FoundAt(w, pid, 0, f)
    ensures (exists n: nat, f :: n < fuel && FoundAt(w, pid, n, f))
       <==> exists n: nat, f :: n < fuel - 1 && FoundAt(w, w.parents[pid], n, f)
  {
    var up := w.parents[pid];
    forall n: nat ensures Gets(w, pid, n + 1) <==> Gets(w, up, n) { GetsUp(w, pid, n); }
    assert forall n: nat :: RootAt(w, pid, n + 1) <==> RootAt(w, up, n);
    assert !RootAt(w, pid, 0);
    if n: nat :| n < fuel && RootAt(w, pid, n) { assert RootAt(w, up, n - 1); }
    if n: nat :| n < fuel - 1 && RootAt(w, up, n) { assert RootAt(w, pid, n + 1); }
    if n: nat, f :| n < fuel && FoundAt(w, pid, n, f) { assert FoundAt(w, up, n - 1, f); }
    if n: nat, f :| n < fuel - 1 && FoundAt(w, up, n, f) { assert FoundAt(w, pid, n + 1, f); }
  }

  /** `anc` is `n + 1` levels up, and no process on the way there is it, is an init process or is its own parent. */
  ghost predicate AboveAt(w: World, pid: int, anc: int, n: nat) {
    && Climb(w, pid, n + 1) == Some(anc)
    && forall m: nat :: 1 <= m <= n ==> Climb(w, pid, m).Some? && Climb(w, pid, m).value > 1 && Climb(w, pid, m).value != anc
                                        && Climb(w, pid, m) != Climb(w, pid, m - 1)
  }

  /** The downward check holds exactly when the ancestor is reached within the cap, and counts its levels. */
  lemma {:induction false} AboveExactly(w: World, pid: int, anc: int, fuel: nat, n: nat)
    ensures Above(w, pid, anc, fuel) == Some(n) <==> n < fuel && AboveAt(w, pid, anc, n)
    decreases fuel
  {
    assert Climb(w, pid, 0) == Some(pid);
    if fuel > 0 && pid in w.parents {
      var up := w.parents[pid];
      assert Climb(w, pid, 1) == Climb(w, up, 0) == Some(up);
      if n > 0 {
        AboveExactly(w, up, anc, fuel - 1, n - 1);
        AboveUp(w, pid, anc, n - 1);
        hide AboveAt, Climb;
      }
    }
  }

  lemma AboveUp(w: World, pid: int, anc: int, n: nat)
    requires pid in w.parents
    ensures var up := w.parents[pid];
            AboveAt(w, pid, anc, n + 1) <==> AboveAt(w, up, anc, n) && up > 1 && up != anc && up != pid
  {
    var up := w.parents[pid];
    assert Climb(w, pid, 0) == Some(pid) && Climb(w, pid, 1) == Some(up);
    assert forall m: nat :: Climb(w, pid, m + 1) == Climb(w, up, m);
    if AboveAt(w, pid, anc, n + 1) {
      forall m: nat | 1 <= m <= n
        ensures Climb(w, up, m).Some? && Climb(w, up, m).value > 1 && Climb(w, up, m).value != anc && Climb(w, up, m) != Climb(w, up, m - 1)
      {
        assert Climb(w, pid, m + 1).Some? && Climb(w, pid, m + 1) != Climb(w, pid, m);
      }
    }
    if AboveAt(w, up, anc, n) && up > 1 && up != anc && up != pid {
      forall m: nat | 1 <= m <= n + 1
        ensures Climb(w, pid, m).Some? && Climb(w, pid, m).value > 1 && Climb(w, pid, m).value != anc && Climb(w, pid, m) != Climb(w, pid, m - 1)
      {
        if m > 1 { assert Climb(w, up, m - 1).Some? && Climb(w, up, m - 1) != Climb(w, up, m - 2); }
      }
    }
  }

  // ---------------------------------------------------------------------------------------------
  // The walk up and the check down agree
  // ---------------------------------------------------------------------------------------------

  lemma {:induction false} WalkedIsAbove(w: World, pid: int, agentType: string, fuel: nat)
    requires pid in w.parents && Walk(w, w.parents[pid], agentType, fuel).frame.Some?
    ensures var r := Walk(w, w.parents[pid], agentType, fuel);
            && Above(w, pid, r.frame.value.pid, fuel).Some?
            && Above(w, pid, r.frame.value.pid, fuel).value <= r.hops && r.frame.value.pid > 1
    decreases fuel
  {
    var up := w.parents[pid];
    if up != Walk(w, up, agentType, fuel).frame.value.pid {
      WalkedIsAbove(w, up, agentType, fuel - 1);
    }
  }

  /** A frame returned for a sender always passes the downward check at the same depth cap. */
  lemma WalkImpliesCheck(w: World, sender: int, agentType: string)
    requires Classify(w, sender, agentType).frame.Some?
    ensures var f := Classify(w, sender, agentType).frame.value;
            && Above(w, sender, f.pid, PROXY_MAX_DEPTH).Some?
            && f in w.frames && LiveFrame(w, f) && f.pid > 1
            && (Classify(w, sender, agentType).verdict == SameTypeAbove <==> f.agentType == agentType)
  {
    WalkedIsAbove(w, sender, agentType, PROXY_MAX_DEPTH);
    WalkedFrameIsLive(w, w.parents[sender], agentType, PROXY_MAX_DEPTH);
  }

  lemma {:induction false} WalkedFrameIsLive(w: World, pid: int, agentType: string, fuel: nat)
    ensures var r := Walk(w, pid, agentType, fuel);
            && (r.frame.Some? <==> r.verdict in {SameTypeAbove, ProxyParent})
            && (r.frame.Some? ==> r.frame.value in w.frames && LiveFrame(w, r.frame.value)
                                  && (r.verdict == SameTypeAbove <==> r.frame.value.agentType == agentType))
    decreases fuel
  {
    if fuel > 0 && !StopsAt(w, pid) { WalkedFrameIsLive(w, w.parents[pid], agentType, fuel - 1); }
  }

  lemma {:induction false} CheckedIsNotRoot(w: World, pid: int, anc: int, agentType: string, fuel: nat)
    requires Above(w, pid, anc, fuel).Some? && anc > 1
    requires var f := FindByPanePID(w.frames, anc); f.Some? && LiveFrame(w, f.value)
    ensures var r := Walk(w, w.parents[pid], agentType, fuel);
            r.verdict != Root && (r.frame.Some? ==> r.hops <= Above(w, pid, anc, fuel).value)
    decreases fuel
  {
    var up := w.parents[pid];
    if up != anc && !StopsAt(w, up) {
      CheckedIsNotRoot(w, up, anc, agentType, fuel - 1);
    }
  }

  /**
   * If the downward check holds for a pid above 1 whose newest pane frame is alive with a matching
   * start time, the walk never answers Root: it finds a frame no further away, or cannot tell.
   */
  lemma CheckImpliesWalk(w: World, sender: int, anc: int, agentType: string)
    requires Above(w, sender, anc, PROXY_MAX_DEPTH).Some? && anc > 1
    requires var f := FindByPanePID(w.frames, anc); f.Some? && LiveFrame(w, f.value)
    ensures var r := Classify(w, sender, agentType);
            || r.verdict == Indeterminate
            || (r.verdict in {SameTypeAbove, ProxyParent} && r.frame.Some?
                && r.hops <= Above(w, sender, anc, PROXY_MAX_DEPTH).value)
  {
    CheckedIsNotRoot(w, sender, anc, agentType, PROXY_MAX_DEPTH);
    WalkedFrameIsLive(w, w.parents[sender], agentType, PROXY_MAX_DEPTH);
  }
}
