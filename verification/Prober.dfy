/**
 * The screen watchers: who owns the watch on a target, and what one watch loop reports.
 *
 * Each Watch call installs a watch under a fresh identity and cancels the one it replaces.  A stop by
 * handle takes effect only while the handle's own watch is still installed.
 */
module Prober {
  import opened Basics

  // ---------------------------------------------------------------------------------------------
  // Ownership
  // ---------------------------------------------------------------------------------------------

  datatype Handle = NoHandle | Handle(target: string, id: nat)

  /** The watch installed for each target, the watches cancelled so far, and the next fresh identity. */
  datatype Registry = Registry(live: map<string, nat>, cancelled: set<nat>, nextId: nat)

  /** Every watch ever started is installed for exactly one target, or cancelled, and never both. */
  ghost predicate Sound(r: Registry) {
    && (forall t :: t in r.live ==> r.live[t] < r.nextId)
    && (forall t, u :: t in r.live && u in r.live && r.live[t] == r.live[u] ==> t == u)
    && (forall id :: id in r.cancelled ==> id < r.nextId)
    && (forall id | 0 <= id < r.nextId :: id in r.live.Values <==> id !in r.cancelled)
  }

  /** Stopping a target cancels whatever watch is installed there. */
  function Stopped(r: Registry, t: string): Registry {
    if t in r.live then r.(live := r.live - {t}, cancelled := r.cancelled + {r.live[t]}) else r
  }

  function Started(r: Registry, t: string): Registry {
    var s := Stopped(r, t);
    s.(live := s.live[t := s.nextId], nextId := s.nextId + 1)
  }

  predicate Owns(r: Registry, h: Handle) {
    h.Handle? && h.target in r.live && r.live[h.target] == h.id
  }

  /** Stopping by handle cancels the handle's own watch or nothing. */
  function StoppedOwned(r: Registry, h: Handle): Registry {
    if Owns(r, h) then Stopped(r, h.target) else r
  }

  lemma StoppedIsSound(r: Registry, t: string)
    requires Sound(r)
    ensures Sound(Stopped(r, t))
  {
    if t in r.live {
      var s := Stopped(r, t);
      forall id | 0 <= id < s.nextId ensures id in s.live.Values <==> id !in s.cancelled {
        if id in r.live.Values && id != r.live[t] {
          var u :| u in r.live && r.live[u] == id;
          assert u in s.live;
        }
      }
    }
  }

  lemma StartedIsSound(r: Registry, t: string)
    requires Sound(r)
    ensures Sound(Started(r, t))
  {
    StoppedIsSound(r, t);
    var s, n := Stopped(r, t), Started(r, t);
    forall id | 0 <= id < n.nextId ensures id in n.live.Values <==> id !in n.cancelled {
      if id == s.nextId {
        assert t in n.live && n.live[t] == id;
      } else if id in s.live.Values {
        var u :| u in s.live && s.live[u] == id;
        assert u in n.live && n.live[u] == id;
      }
    }
  }

  datatype Op = Watch(t: string) | Stop(t: string) | StopHandle(h: Handle) | StopAll

  function StoppedAll(r: Registry): Registry {
    r.(live := map[], cancelled := r.cancelled + r.live.Values)
  }

  function Do(r: Registry, op: Op): Registry {
    match op
    case Watch(t) => Started(r, t)
    case Stop(t) => Stopped(r, t)
    case StopHandle(h) => StoppedOwned(r, h)
    case StopAll => StoppedAll(r)
  }

  function DoAll(r: Registry, ops: seq<Op>): Registry {
    if ops == [] then r else Do(DoAll(r, ops[..|ops| - 1]), ops[|ops| - 1])
  }

  lemma {:induction false} AlwaysSound(r: Registry, ops: seq<Op>)
    requires Sound(r)
    ensures Sound(DoAll(r, ops))
  {
    if ops != [] {
      var front := DoAll(r, ops[..|ops| - 1]);
      AlwaysSound(r, ops[..|ops| - 1]);
      match ops[|ops| - 1]
      case Watch(t) => StartedIsSound(front, t);
      case Stop(t) => StoppedIsSound(front, t);
      case StopHandle(h) => if Owns(front, h) { StoppedIsSound(front, h.target); }
      case StopAll =>
    }
  }

  /** An owned watch has not been cancelled. */
  lemma OwnedIsLive(r: Registry, h: Handle)
    requires Sound(r) && Owns(r, h)
    ensures h.id !in r.cancelled
  {
    assert r.live[h.target] in r.live.Values;
  }

  /**
   * Over any run, a handle stops owning its target as soon as its watch is cancelled, and never owns it
   * again: from then on stopping by that handle changes nothing.
   */
  lemma {:induction false} OwnershipEndsForGood(r: Registry, h: Handle, ops: seq<Op>)
    requires Sound(r) && h.Handle? && h.id < r.nextId && h.id in r.cancelled
    ensures var s := DoAll(r, ops);
            h.id in s.cancelled && h.id < s.nextId && !Owns(s, h) && StoppedOwned(s, h) == s
  {
    AlwaysSound(r, ops);
    if ops != [] { OwnershipEndsForGood(r, h, ops[..|ops| - 1]); }
    var s := DoAll(r, ops);
    if Owns(s, h) { OwnedIsLive(s, h); }
  }

  /** A stop by handle never cancels a watch that another call started, whoever owns the target now. */
  lemma OwnedStopSparesOthers(r: Registry, h: Handle, t: string)
    requires Sound(r) && t in r.live && !(h.Handle? && r.live[t] == h.id)
    ensures var s := StoppedOwned(r, h);
            t in s.live && s.live[t] == r.live[t] && (r.live[t] in s.cancelled <==> r.live[t] in r.cancelled)
  {
  }

  class Prober {
    var watchers: map<string, nat>
    var cancelled: set<nat>
    var nextId: nat

    ghost function Contents(): Registry
      reads this
    {
      Registry(watchers, cancelled, nextId)
    }

    constructor ()
      ensures Contents() == Registry(map[], {}, 0) && Sound(Contents())
    {
      watchers, cancelled, nextId := map[], {}, 0;
    }

    /** Asking for both the top and the bottom lines is refused: nothing is installed. */
    method Watch(target: string, topLines: int, bottomLines: int) returns (h: Handle)
      requires Sound(Contents())
      modifies this
      ensures Sound(Contents())
      ensures topLines > 0 && bottomLines > 0 ==> h == NoHandle && Contents() == old(Contents())
      ensures !(topLines > 0 && bottomLines > 0) ==> Contents() == Started(old(Contents()), target)
      ensures h.Handle? ==> Owns(Contents(), h) && h.target == target && h.id !in old(watchers).Values + old(cancelled)
      ensures h.NoHandle? <==> topLines > 0 && bottomLines > 0
    {
      if topLines > 0 && bottomLines > 0 { return NoHandle; }
      StartedIsSound(Contents(), target);
      if target in watchers { cancelled := cancelled + {watchers[target]}; }
      var id := nextId;
      nextId := nextId + 1;
      assert old(watchers)[target := id] == (old(watchers) - {target})[target := id];
      watchers := watchers[target := id];
      h := Handle(target, id);
    }

    method StopWatch(target: string)
      requires Sound(Contents())
      modifies this
      ensures Sound(Contents()) && Contents() == Stopped(old(Contents()), target)
    {
      StoppedIsSound(Contents(), target);
      if target in watchers {
        cancelled := cancelled + {watchers[target]};
        watchers := watchers - {target};
      }
    }

    /** Reports whether the handle still owned its target. */
    method StopWatchOwned(h: Handle) returns (stopped: bool)
      requires Sound(Contents())
      modifies this
      ensures Sound(Contents()) && Contents() == StoppedOwned(old(Contents()), h)
      ensures stopped <==> Owns(old(Contents()), h)
    {
      if h.NoHandle? { return false; }
      if h.target !in watchers || watchers[h.target] != h.id { return false; }
      StoppedIsSound(Contents(), h.target);
      cancelled := cancelled + {watchers[h.target]};
      watchers := watchers - {h.target};
      stopped := true;
    }

    method StopAllWatches()
      requires Sound(Contents())
      modifies this
      ensures Contents() == StoppedAll(old(Contents())) && Sound(Contents())
    {
      ghost var r0 := Contents();
      while watchers != map[]
        invariant Draining(r0, Contents())
        decreases |watchers|
      {
        var target :| target in watchers;
        ghost var before := Contents();
        DrainStep(r0, before, target);
        cancelled := cancelled + {watchers[target]};
        watchers := watchers - {target};
        assert Contents() == Stopped(before, target);
      }
      Drained(r0, Contents());
    }

    /**
     * Deferred by a loop until it ends: it drops its own entry if that is still installed, which it is not
     * once its watch has been cancelled.
     */
    method Cleanup(target: string, id: nat)
      modifies this`watchers
      ensures watchers == if Owns(old(Contents()), Handle(target, id)) then old(watchers) - {target} else old(watchers)
      ensures old(Sound(Contents())) && id in cancelled ==> watchers == old(watchers)
    {
      if Sound(Contents()) && id in cancelled { CleanupFindsNothing(Contents(), target, id); }
      if target in watchers && watchers[target] == id { watchers := watchers - {target}; }
    }
  }

  /**
   * A loop ends only once its watch is cancelled, and then its clean-up finds nothing of its own to drop:
   * a replacement's entry survives.
   */
  lemma CleanupFindsNothing(r: Registry, target: string, id: nat)
    requires Sound(r) && id in r.cancelled
    ensures !Owns(r, Handle(target, id))
  {
    if Owns(r, Handle(target, id)) { OwnedIsLive(r, Handle(target, id)); }
  }

  ghost predicate Draining(r0: Registry, r: Registry) {
    Sound(r) && r.nextId == r0.nextId && r.cancelled + r.live.Values == r0.cancelled + r0.live.Values
  }

  lemma Drained(r0: Registry, r: Registry)
    requires Draining(r0, r) && r.live == map[]
    ensures r == StoppedAll(r0) && Sound(r)
  {
    assert r.live.Values == {};
  }

  lemma DrainStep(r0: Registry, r: Registry, t: string)
    requires Draining(r0, r) && t in r.live
    ensures Draining(r0, Stopped(r, t)) && |Stopped(r, t).live| < |r.live|
  {
    StoppedIsSound(r, t);
    SameWatches(r, t);
  }

  lemma SameWatches(r: Registry, t: string)
    requires Sound(r) && t in r.live
    ensures var s := Stopped(r, t);
            s.cancelled + s.live.Values == r.cancelled + r.live.Values && |s.live| < |r.live|
  {
    var s := Stopped(r, t);
    assert s.live.Keys == r.live.Keys - {t};
    forall id | id in r.live.Values ensures id in s.cancelled + s.live.Values {
      var u :| u in r.live && r.live[u] == id;
      if u != t { assert u in s.live && s.live[u] == id; }
    }
  }

  // ---------------------------------------------------------------------------------------------
  // One watch loop
  // ---------------------------------------------------------------------------------------------

  datatype Kind = ScreenStable | ScreenChanged

  datatype Report = Report(kind: Kind, content: string)

  /** The captures that succeeded, in order. */
  function Successes(captures: seq<Option<string>>): seq<string> {
    if captures == [] then []
    else
      var rest := Successes(captures[..|captures| - 1]);
      if captures[|captures| - 1].Some? then rest + [captures[|captures| - 1].value] else rest
  }

  /** How many successful captures before number `j` show the same hash without a break. */
  function Unchanged(screens: seq<string>, hash: string -> bv32, j: nat): (m: nat)
    requires j < |screens|
  {
    if j == 0 || hash(screens[j - 1]) != hash(screens[j]) then 0 else Unchanged(screens, hash, j - 1) + 1
  }

  lemma {:induction false} UnchangedIsLongest(screens: seq<string>, hash: string -> bv32, j: nat)
    requires j < |screens|
    ensures var m := Unchanged(screens, hash, j);
            && m <= j && (forall i :: j - m <= i <= j ==> hash(screens[i]) == hash(screens[j]))
            && (m < j ==> hash(screens[j - m - 1]) != hash(screens[j]))
  {
    if j > 0 { UnchangedIsLongest(screens, hash, j - 1); }
  }

  /** A period of zero means three; a negative one fires on every unchanged capture. */
  function Period(idleStable: int): (p: nat)
    ensures p > 0
  {
    if idleStable == 0 then 3 else if idleStable < 0 then 1 else idleStable
  }

  /** What the loop owes its callback for the successful capture number `j`. */
  function ReportAt(screens: seq<string>, hash: string -> bv32, period: nat, j: nat): seq<Report>
    requires j < |screens| && period > 0
  {
    if j == 0 then []
    else if hash(screens[j]) != hash(screens[j - 1]) then [Report(ScreenChanged, screens[j])]
    else if Unchanged(screens, hash, j) % period == 0 then [Report(ScreenStable, screens[j])]
    else []
  }

  function Reports(screens: seq<string>, hash: string -> bv32, period: nat, n: nat): seq<Report>
    requires n <= |screens| && period > 0
  {
    if n == 0 then [] else Reports(screens, hash, period, n - 1) + ReportAt(screens, hash, period, n - 1)
  }

  lemma ReportOfPrefix(screens: seq<string>, more: seq<string>, hash: string -> bv32, period: nat, j: nat)
    requires j < |screens| && period > 0
    requires Unchanged(screens + more, hash, j) == Unchanged(screens, hash, j)
    ensures ReportAt(screens + more, hash, period, j) == ReportAt(screens, hash, period, j)
  {
    var all := screens + more;
    assert all[j] == screens[j] && (j > 0 ==> all[j - 1] == screens[j - 1]);
  }

  lemma {:induction false} ReportsOfPrefix(screens: seq<string>, more: seq<string>, hash: string -> bv32, period: nat, n: nat)
    requires n <= |screens| && period > 0
    ensures Reports(screens + more, hash, period, n) == Reports(screens, hash, period, n)
  {
    if n > 0 {
      ReportsOfPrefix(screens, more, hash, period, n - 1);
      UnchangedOfPrefix(screens, more, hash, n - 1);
      ReportOfPrefix(screens, more, hash, period, n - 1);
    }
  }

  lemma {:induction false} UnchangedOfPrefix(screens: seq<string>, more: seq<string>, hash: string -> bv32, j: nat)
    requires j < |screens|
    ensures Unchanged(screens + more, hash, j) == Unchanged(screens, hash, j)
  {
    if j > 0 { UnchangedOfPrefix(screens, more, hash, j - 1); }
  }

  lemma CountUp(m: nat, period: nat)
    requires period > 0
    ensures (m + 1) % period == if m % period + 1 == period then 0 else m % period + 1
  {
    var q, r := m / period, m % period;
    assert m == q * period + r;
    if r + 1 == period {
      assert m + 1 == (q + 1) * period;
      ModUnique(m + 1, period, q + 1, 0);
    } else {
      ModUnique(m + 1, period, q, r + 1);
    }
  }

  lemma ModUnique(n: nat, period: nat, q: nat, r: nat)
    requires 0 <= r < period && n == q * period + r
    ensures n % period == r
  {
    var d := n / period - q;
    assert n % period == r - d * period;
    Multiple(d, period);
  }

  lemma Multiple(d: int, period: nat)
    requires period > 0
    ensures d >= 1 ==> d * period >= period
    ensures d <= -1 ==> d * period <= -(period as int)
  {
  }

  /** One more successful capture. */
  lemma OneMore(before: seq<string>, current: string, hash: string -> bv32, period: nat)
    requires period > 0
    ensures var screens := before + [current];
            var j := |before|;
            && Reports(screens, hash, period, j + 1) == Reports(before, hash, period, j) + ReportAt(screens, hash, period, j)
            && Unchanged(screens, hash, j) ==
               if j == 0 || hash(before[j - 1]) != hash(current) then 0 else Unchanged(before, hash, j - 1) + 1
  {
    ReportsOfPrefix(before, [current], hash, period, |before|);
    if before != [] { UnchangedOfPrefix(before, [current], hash, |before| - 1); }
  }

  /** What the loop's variables hold after the successful captures `screens`. */
  ghost predicate Tracking(screens: seq<string>, hash: string -> bv32, period: nat, baselineHash: bv32, stableCount: int,
                           out: seq<Report>)
    requires period > 0
  {
    && (screens != [] ==> baselineHash == hash(screens[|screens| - 1])
                          && stableCount == Unchanged(screens, hash, |screens| - 1) % period)
    && out == Reports(screens, hash, period, |screens|)
  }

  lemma Tracked(before: seq<string>, current: string, hash: string -> bv32, period: nat, baselineHash: bv32,
                stableCount: int, out: seq<Report>)
    requires period > 0 && Tracking(before, hash, period, baselineHash, stableCount, out)
    ensures var screens := before + [current];
            && (before == [] ==> Tracking(screens, hash, period, hash(current), 0, out))
            && (before != [] && hash(current) != baselineHash ==>
                  Tracking(screens, hash, period, hash(current), 0, out + [Report(ScreenChanged, current)]))
            && (before != [] && hash(current) == baselineHash ==>
                  if stableCount + 1 >= period
                  then Tracking(screens, hash, period, baselineHash, 0, out + [Report(ScreenStable, current)])
                  else Tracking(screens, hash, period, baselineHash, stableCount + 1, out))
  {
    OneMore(before, current, hash, period);
    if before != [] { CountUp(Unchanged(before, hash, |before| - 1), period); }
  }

  lemma SuccessesNext(captures: seq<Option<string>>, n: nat)
    requires n < |captures|
    ensures Successes(captures[..n + 1])
         == if captures[n].Some? then Successes(captures[..n]) + [captures[n].value] else Successes(captures[..n])
  {
    assert captures[..n + 1][..n] == captures[..n];
  }

  /**
   * The loop over one watch's captures; the first is taken immediately, the others one per tick.  Its
   * reports depend on the successful captures alone: a failed capture leaves no trace.
   */
  method WatchLoop(captures: seq<Option<string>>, idleStable: int, hash: string -> bv32) returns (out: seq<Report>)
    requires captures != []
    ensures var screens := Successes(captures); out == Reports(screens, hash, Period(idleStable), |screens|)
  {
    var haveBaseline, baselineHash := false, 0;
    var stableCount := 0;
    out := [];
    ghost var period := Period(idleStable);
    ghost var screens := Successes(captures[..0]);
    SuccessesNext(captures, 0);
    if captures[0].Some? {
      Tracked(screens, captures[0].value, hash, period, baselineHash, stableCount, out);
      baselineHash := hash(captures[0].value);
      haveBaseline := true;
    }
    var threshold := if idleStable == 0 then 3 else idleStable;
    for tick := 1 to |captures|
      invariant haveBaseline <==> Successes(captures[..tick]) != []
      invariant 0 <= stableCount < period
      invariant Tracking(Successes(captures[..tick]), hash, period, baselineHash, stableCount, out)
    {
      SuccessesNext(captures, tick);
      if captures[tick].None? { continue; }
      var current := captures[tick].value;
      Tracked(Successes(captures[..tick]), current, hash, period, baselineHash, stableCount, out);
      if !haveBaseline {
        baselineHash := hash(current);
        haveBaseline := true;
        stableCount := 0;
        continue;
      }
      if hash(current) != baselineHash {
        out := out + [Report(ScreenChanged, current)];
        baselineHash := hash(current);
        stableCount := 0;
        continue;
      }
      stableCount := stableCount + 1;
      if stableCount >= threshold {
        out := out + [Report(ScreenStable, current)];
        stableCount := 0;
      }
    }
    assert captures[..|captures|] == captures;
  }

  /**
   * A ScreenStable means that the last `period` successful captures all hashed like the one before
   * them; a ScreenChanged means that the hash just moved.  Without either condition nothing is reported.
   */
  lemma ReportsMeanWhatTheySay(screens: seq<string>, hash: string -> bv32, period: nat, j: nat)
    requires j < |screens| && period > 0
    ensures var r := ReportAt(screens, hash, period, j);
            && |r| <= 1
            && (r == [Report(ScreenChanged, screens[j])] <==> j > 0 && hash(screens[j]) != hash(screens[j - 1]))
            && (r == [Report(ScreenStable, screens[j])] ==>
                  j >= period && forall i :: j - period <= i <= j ==> hash(screens[i]) == hash(screens[j]))
            && (j >= period && (forall i :: j - period <= i <= j ==> hash(screens[i]) == hash(screens[j]))
                && (j == period || hash(screens[j - period - 1]) != hash(screens[j]))
                ==> r == [Report(ScreenStable, screens[j])])
  {
    var m := Unchanged(screens, hash, j);
    UnchangedIsLongest(screens, hash, j);
    if m > 0 && m < period { ModUnique(m, period, 0, m); }
    if j >= period && (forall i :: j - period <= i <= j ==> hash(screens[i]) == hash(screens[j]))
       && (j == period || hash(screens[j - period - 1]) != hash(screens[j])) {
      assert m == period;
      ModUnique(m, period, 1, 0);
    }
  }
}
