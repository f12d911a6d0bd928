/** The three-way merge itself, as loops over indexes, and the summary counters. */
module Reconcile {
  import opened Basics
  import opened Processes
  import opened Inventory

  const UNKNOWN_PREFIX := "unknown:"

  // ---------------------------------------------------------------------------------------------
  // The record each origin deserves
  // ---------------------------------------------------------------------------------------------

  /** The directory part of a `unix:` endpoint; empty for any other shape. */
  function SocketDirFromEndpoint(ep: string): string {
    if |ep| <= 5 || ep[..5] != "unix:" then "" else DirOf(ep[5..])
  }

  function DirOf(path: string): string {
    if path == "" then "" else if path[|path| - 1] == '/' then path[..|path| - 1] else DirOf(path[..|path| - 1])
  }

  function CanonicalCwd(p: ProcessC): string {
    if p.cwdResolved != "" then p.cwdResolved else p.rawCwd
  }

  /** Two processes of the group work in different directories. */
  predicate CwdsDiffer(procs: seq<ProcessC>, g: seq<nat>)
    requires forall i :: i in g ==> i < |procs|
  {
    exists a, b :: a in g && b in g && CanonicalCwd(procs[a]) != CanonicalCwd(procs[b])
  }

  function SharedKey(procs: seq<ProcessC>, key: string): seq<Code> {
    var g := Group(procs, key, |procs|);
    if |g| <= 1 then [] else if CwdsDiffer(procs, g) then [BrokerKeyCollision] else [DuplicateRuntime]
  }

  datatype CwdClass = CwdClass(exists_: bool, err: string, anomalies: seq<Code>)

  function Classified(p: ProcessC, answer: CwdAnswer): CwdClass {
    if answer == CtxCanceled then CwdClass(false, "ctx_canceled", [])
    else if CanonicalCwd(p) == "" then CwdClass(false, "", [])
    else match answer
      case Found => CwdClass(true, "", [])
      case TimedOut => CwdClass(false, "timeout", [CwdTransientStatError])
      case NoEntry => CwdClass(false, "ENOENT", [CwdMissing])
      case Denied => CwdClass(false, "EACCES", [CwdTransientStatError])
      case _ => CwdClass(false, "other", [CwdTransientStatError])
  }

  function StateAnomalies(c: Inputs, i: nat): seq<Code>
    requires i < |c.procs|
  {
    var p, j := c.procs[i], OwnedState(c, i);
    if j.Some? then
      var s := c.states[j.value];
      s.anomalies + if s.brokerPid != 0 && s.brokerPid != p.pid then [BrokerJSONPidMismatch] else []
    else if StateFor(c.states, p.key, |c.states|).None? then [ProcessOrphan, StateDirNoMatch]
    else []
  }

  const NO_STATE := StateC("", "", false, 0, "", false, None, [])

  function ProcessRecord(c: Inputs, i: nat): Record
    requires Valid(c) && i < |c.procs|
  {
    var p, j, k := c.procs[i], OwnedState(c, i), SocketOf(c.socks, c.procs[i].pid, 0);
    var s := if j.Some? then c.states[j.value] else NO_STATE;
    var cwd := Classified(p, c.stats[i]);
    var dir := SocketDirFromEndpoint(p.endpoint);
    Record(p.key, p.pid, p.lstart, p.rawCwd, p.cwdResolved, p.endpoint,
           if dir == "" && k.Some? then c.socks[k.value].sockDir else dir,
           s.stateDir, s.hasBrokerJSON, s.brokerPid, s.stateReadable, s.lastJobUpdatedAt, cwd.exists_, cwd.err,
           Sources(true, j.Some?, k.Some?),
           p.anomalies + SharedKey(c.procs, p.key) + StateAnomalies(c, i)
           + (if k.Some? then c.socks[k.value].anomalies else []) + cwd.anomalies)
  }

  function StateRecord(s: StateC): Record {
    Record(s.key, 0, UNKNOWN, "", "", "", "", s.stateDir, s.hasBrokerJSON, s.brokerPid, s.stateReadable, s.lastJobUpdatedAt,
           false, "", Sources(false, true, false), [StateDirOrphan] + s.anomalies)
  }

  /** The key of the last state directory whose broker file names this socket directory. */
  function KeyBySession(states: seq<StateC>, dir: string, n: nat): Option<string>
    requires n <= |states|
  {
    if n == 0 then None
    else if states[n - 1].sessionDir != "" && states[n - 1].sessionDir == dir then Some(states[n - 1].key)
    else KeyBySession(states, dir, n - 1)
  }

  function SocketKey(c: Inputs, s: SocketC): string {
    var k := KeyBySession(c.states, s.sockDir, |c.states|);
    if k.Some? then k.value
    else UNKNOWN_PREFIX + if s.syntheticKey != "" then s.syntheticKey else c.synth(s.sockDir)
  }

  function SocketRecord(c: Inputs, s: SocketC): Record {
    Record(SocketKey(c, s), 0, UNKNOWN, "", "", "", s.sockDir, "", false, 0, false, None, false, "",
           Sources(false, false, true), [SocketOrphan] + s.anomalies)
  }

  predicate Known(c: Inputs, o: Origin) {
    && (o.process.Some? ==> o.process.value < |c.procs|)
    && (o.state.Some? ==> o.state.value < |c.states|)
    && (o.socket.Some? ==> o.socket.value < |c.socks|)
    && ProperOrigin(o)
  }

  function RecordOf(c: Inputs, o: Origin): Record
    requires Valid(c) && Known(c, o)
  {
    if o.process.Some? then ProcessRecord(c, o.process.value)
    else if o.state.Some? then StateRecord(c.states[o.state.value])
    else SocketRecord(c, c.socks[o.socket.value])
  }

  /** What the stat of a working directory says: found, missing, or not known; an empty path is not asked. */
  lemma ClassifiedFacts(p: ProcessC, answer: CwdAnswer)
    ensures var c, named := Classified(p, answer), p.cwdResolved != "" || p.rawCwd != "";
            && (c.exists_ <==> named && answer == Found)
            && (CwdMissing in c.anomalies <==> named && answer == NoEntry)
            && (CwdTransientStatError in c.anomalies <==> named && answer in {TimedOut, Denied, OtherError})
            && |c.anomalies| <= 1 && (forall x :: x in c.anomalies ==> x == CwdMissing || x == CwdTransientStatError)
            && (c.err == "ctx_canceled" <==> answer == CtxCanceled)
            && (c.err == "" <==> answer != CtxCanceled && (!named || answer == Found))
            && (named && answer == NoEntry ==> c.err == "ENOENT") && (named && answer == Denied ==> c.err == "EACCES")
            && (named && answer == TimedOut ==> c.err == "timeout")
  {
    assert "ctx_canceled"[0] == 'c' && "timeout"[0] == 't' && "other"[0] == 'o' && "ENOENT"[0] == 'E' && "EACCES"[1] == 'A';
  }

  /**
   * What a process's record shows: the process as listed; of the state directory, all if the process owns
   * it and nothing otherwise; the endpoint's socket directory, or the one that its pid file was found in;
   * and the anomalies of each of its sources, each of the join, and each of its working directory.
   */
  lemma ProcessRecordShows(c: Inputs, i: nat)
    requires Valid(c) && i < |c.procs|
    ensures var p, r, j, k := c.procs[i], ProcessRecord(c, i), OwnedState(c, i), SocketOf(c.socks, c.procs[i].pid, 0);
            && r.key == p.key && r.pid == p.pid && r.lstart == p.lstart && r.cwd == p.rawCwd
            && r.cwdResolved == p.cwdResolved && r.endpoint == p.endpoint
            && r.sources.process && (r.sources.stateDir <==> j.Some?) && (r.sources.socket <==> k.Some?)
            && (if j.Some? then
                  var s := c.states[j.value];
                  && s.key == p.key && r.stateDir == s.stateDir && r.hasBrokerJSON == s.hasBrokerJSON && r.brokerPid == s.brokerPid
                  && r.stateReadable == s.stateReadable && r.lastJobUpdatedAt == s.lastJobUpdatedAt
                else r.stateDir == "" && !r.hasBrokerJSON && r.brokerPid == 0 && !r.stateReadable && r.lastJobUpdatedAt.None?)
            && (SocketDirFromEndpoint(p.endpoint) != "" ==> r.socketDir == SocketDirFromEndpoint(p.endpoint))
            && (SocketDirFromEndpoint(p.endpoint) == "" ==> r.socketDir == if k.Some? then c.socks[k.value].sockDir else "")
            && (r.cwdExists <==> (p.cwdResolved != "" || p.rawCwd != "") && c.stats[i] == Found)
            && (forall x :: x in p.anomalies ==> x in r.anomalies)
            && (j.Some? ==> forall x :: x in c.states[j.value].anomalies ==> x in r.anomalies)
            && (k.Some? ==> forall x :: x in c.socks[k.value].anomalies ==> x in r.anomalies)
            && (j.Some? && r.brokerPid != 0 && r.brokerPid != r.pid ==> BrokerJSONPidMismatch in r.anomalies)
            && ((forall s :: s in c.states ==> s.key != p.key) ==> ProcessOrphan in r.anomalies && StateDirNoMatch in r.anomalies)
  {
    ClassifiedFacts(c.procs[i], c.stats[i]);
    var p, r, j := c.procs[i], ProcessRecord(c, i), OwnedState(c, i);
    var cwd := Classified(p, c.stats[i]);
    var k := SocketOf(c.socks, p.pid, 0);
    InJoined(p.anomalies, SharedKey(c.procs, p.key), StateAnomalies(c, i), if k.Some? then c.socks[k.value].anomalies else [],
             cwd.anomalies);
    if StateFor(c.states, p.key, |c.states|).Some? {
      assert c.states[StateFor(c.states, p.key, |c.states|).value] in c.states;
    }
  }

  /** What the record of a state directory without a process shows. */
  lemma StateRecordShows(s: StateC)
    ensures var r := StateRecord(s);
            && r.key == s.key && r.stateDir == s.stateDir && r.hasBrokerJSON == s.hasBrokerJSON && r.brokerPid == s.brokerPid
            && r.stateReadable == s.stateReadable && r.lastJobUpdatedAt == s.lastJobUpdatedAt && r.pid == 0 && !r.cwdExists
            && r.sources == Sources(false, true, false) && StateDirOrphan in r.anomalies
            && (forall x :: x in s.anomalies ==> x in r.anomalies) && r.socketDir == r.endpoint == r.cwd == ""
  {
    assert StateRecord(s).anomalies[0] == StateDirOrphan;
  }

  /**
   * What the record of a socket directory without a process shows.  Its key is that of the last state
   * directory whose broker file names it, and else a key of the unknown kind.
   */
  lemma SocketRecordShows(c: Inputs, s: SocketC)
    ensures var r := SocketRecord(c, s);
            && r.socketDir == s.sockDir && r.pid == 0 && r.sources == Sources(false, false, true) && SocketOrphan in r.anomalies
            && (forall x :: x in s.anomalies ==> x in r.anomalies) && r.stateDir == r.endpoint == r.cwd == "" && !r.cwdExists
            && (if exists j :: Names(c, j, s.sockDir) then
                  exists j :: Names(c, j, s.sockDir) && r.key == c.states[j].key && forall k :: j < k ==> !Names(c, k, s.sockDir)
                else r.key == "unknown:" + if s.syntheticKey != "" then s.syntheticKey else c.synth(s.sockDir))
  {
    assert SocketRecord(c, s).anomalies[0] == SocketOrphan;
    LastNamed(c, s.sockDir, |c.states|);
  }

  /** The broker file of state directory `j` names this socket directory. */
  predicate Names(c: Inputs, j: int, dir: string) {
    0 <= j < |c.states| && c.states[j].sessionDir != "" && c.states[j].sessionDir == dir
  }

  lemma {:induction false} LastNamed(c: Inputs, dir: string, n: nat)
    requires n <= |c.states|
    ensures var k := KeyBySession(c.states, dir, n);
            if k.None? then forall j :: j < n ==> !Names(c, j, dir)
            else exists j :: j < n && Names(c, j, dir) && k.value == c.states[j].key && forall i :: j < i < n ==> !Names(c, i, dir)
  {
    if n > 0 {
      LastNamed(c, dir, n - 1);
      assert Names(c, n - 1, dir) <==> c.states[n - 1].sessionDir != "" && c.states[n - 1].sessionDir == dir;
    }
  }

  lemma InJoined(a: seq<Code>, b: seq<Code>, d: seq<Code>, e: seq<Code>, f: seq<Code>)
    ensures forall x :: x in a + b + d + e + f <==> x in a || x in b || x in d || x in e || x in f
  {
  }

  /** A shared key is reported on each of its processes, as one runtime run twice or as a collision. */
  lemma SharedKeyReported(c: Inputs, i: nat)
    requires i < |c.procs|
    ensures var codes := SharedKey(c.procs, c.procs[i].key);
            && |codes| <= 1
            && (codes != [] <==> exists k :: 0 <= k < |c.procs| && k != i && c.procs[k].key == c.procs[i].key)
            && (codes == [DuplicateRuntime] ==>
                  forall k :: 0 <= k < |c.procs| && c.procs[k].key == c.procs[i].key ==>
                    CanonicalCwd(c.procs[k]) == CanonicalCwd(c.procs[i]))
  {
    var g := Group(c.procs, c.procs[i].key, |c.procs|);
    assert i in g;
    if |g| > 1 {
      assert g[0] in g && g[1] in g && g[0] < g[1];
    } else if k :| 0 <= k < |c.procs| && k != i && c.procs[k].key == c.procs[i].key {
      assert k in g;
    }
    if |g| > 1 && !CwdsDiffer(c.procs, g) {
      forall k | 0 <= k < |c.procs| && c.procs[k].key == c.procs[i].key
        ensures CanonicalCwd(c.procs[k]) == CanonicalCwd(c.procs[i])
      {
        assert k in g;
      }
    }
  }

  // ---------------------------------------------------------------------------------------------
  // The loops
  // ---------------------------------------------------------------------------------------------

  method IndexStates(states: seq<StateC>) returns (byKey: map<string, nat>, bySession: map<string, nat>)
    ensures forall k :: (if k in byKey then Some(byKey[k]) else None) == StateFor(states, k, |states|)
    ensures forall d :: d in bySession ==> bySession[d] < |states|
    ensures forall d :: (if d in bySession then Some(states[bySession[d]].key) else None) == KeyBySession(states, d, |states|)
  {
    byKey, bySession := map[], map[];
    for i := 0 to |states|
      invariant forall k :: (if k in byKey then Some(byKey[k]) else None) == StateFor(states, k, i)
      invariant forall d :: d in bySession ==> bySession[d] < i
      invariant forall d :: (if d in bySession then Some(states[bySession[d]].key) else None) == KeyBySession(states, d, i)
    {
      byKey := byKey[states[i].key := i];
      if states[i].sessionDir != "" { bySession := bySession[states[i].sessionDir := i]; }
    }
  }

  method GroupProcesses(procs: seq<ProcessC>) returns (byKey: map<string, seq<nat>>)
    ensures forall k :: (if k in byKey then byKey[k] else []) == Group(procs, k, |procs|)
  {
    byKey := map[];
    for i := 0 to |procs|
      invariant forall k :: (if k in byKey then byKey[k] else []) == Group(procs, k, i)
    {
      var k := procs[i].key;
      ghost var was := byKey;
      byKey := byKey[k := (if k in byKey then byKey[k] else []) + [i]];
      forall j ensures (if j in byKey then byKey[j] else []) == Group(procs, j, i + 1) {
        assert (if j in was then was[j] else []) == Group(procs, j, i);
      }
    }
  }

  method SharedKeyAnomaly(procs: seq<ProcessC>, g: seq<nat>) returns (codes: seq<Code>)
    requires forall i :: i in g ==> i < |procs|
    requires forall k :: 0 <= k < |g| ==> g[k] < |procs|
    ensures codes == if |g| <= 1 then [] else if CwdsDiffer(procs, g) then [BrokerKeyCollision] else [DuplicateRuntime]
  {
    if |g| <= 1 { return []; }
    var cwds: set<string> := {};
    for k := 0 to |g|
      invariant forall d :: d in cwds <==> exists a :: 0 <= a < k && CanonicalCwd(procs[g[a]]) == d
    {
      cwds := cwds + {CanonicalCwd(procs[g[k]])};
    }
    var first := CanonicalCwd(procs[g[0]]);
    assert g[0] in g;
    TwoMembers(cwds, first);
    if |cwds| > 1 {
      var other :| other in cwds && other != first;
      var a :| 0 <= a < |g| && CanonicalCwd(procs[g[a]]) == other;
      assert g[a] in g;
      return [BrokerKeyCollision];
    }
    forall a, b | a in g && b in g ensures CanonicalCwd(procs[a]) == CanonicalCwd(procs[b]) {
      var i, j :| 0 <= i < |g| && 0 <= j < |g| && g[i] == a && g[j] == b;
      assert CanonicalCwd(procs[g[i]]) in cwds && CanonicalCwd(procs[g[j]]) in cwds;
    }
    codes := [DuplicateRuntime];
  }

  lemma TwoMembers(s: set<string>, x: string)
    requires x in s
    ensures |s| > 1 <==> exists y :: y in s && y != x
  {
    if y :| y in s && y != x {
      assert s == {x, y} + (s - {x, y});
    } else {
      assert s == {x};
    }
  }

  method FindSocket(socks: seq<SocketC>, pid: int) returns (j: Option<nat>)
    ensures j == SocketOf(socks, pid, 0)
  {
    for k := 0 to |socks|
      invariant SocketOf(socks, pid, 0) == SocketOf(socks, pid, k)
    {
      if socks[k].pidFromFile != 0 && socks[k].pidFromFile == pid { return Some(k); }
    }
    j := None;
  }

  /** What a process record holds once its state directory, if it owns one, has been merged. */
  function WithState(c: Inputs, i: nat): Record
    requires i < |c.procs|
  {
    var p, j := c.procs[i], OwnedState(c, i);
    var s := if j.Some? then c.states[j.value] else NO_STATE;
    Record(p.key, p.pid, p.lstart, p.rawCwd, p.cwdResolved, p.endpoint, SocketDirFromEndpoint(p.endpoint),
           s.stateDir, s.hasBrokerJSON, s.brokerPid, s.stateReadable, s.lastJobUpdatedAt, false, "",
           Sources(true, j.Some?, false), p.anomalies + SharedKey(c.procs, p.key) + StateAnomalies(c, i))
  }

  method MergeState(c: Inputs, i: nat, stateByKey: map<string, nat>, group: seq<nat>) returns (rec: Record, owns: bool)
    requires i < |c.procs| && group == Group(c.procs, c.procs[i].key, |c.procs|)
    requires (if c.procs[i].key in stateByKey then Some(stateByKey[c.procs[i].key]) else None)
             == StateFor(c.states, c.procs[i].key, |c.states|)
    ensures rec == WithState(c, i) && owns == OwnedState(c, i).Some?
  {
    var pc := c.procs[i];
    rec := Record(pc.key, pc.pid, pc.lstart, pc.rawCwd, pc.cwdResolved, pc.endpoint, SocketDirFromEndpoint(pc.endpoint),
                  "", false, 0, false, None, false, "", Sources(true, false, false), pc.anomalies);
    var shared := SharedKeyAnomaly(c.procs, group);
    rec := rec.(anomalies := rec.anomalies + shared);
    var hasState := pc.key in stateByKey;
    owns := false;
    if hasState {
      var sc := c.states[stateByKey[pc.key]];
      owns := |group| == 1 || (sc.brokerPid != 0 && sc.brokerPid == pc.pid);
      if owns {
        rec := rec.(sources := Sources(true, true, false), stateDir := sc.stateDir, hasBrokerJSON := sc.hasBrokerJSON,
                    brokerPid := sc.brokerPid, stateReadable := sc.stateReadable, lastJobUpdatedAt := sc.lastJobUpdatedAt,
                    anomalies := rec.anomalies + sc.anomalies);
        if sc.brokerPid != 0 && sc.brokerPid != pc.pid {
          rec := rec.(anomalies := rec.anomalies + [BrokerJSONPidMismatch]);
        }
      }
    } else {
      rec := rec.(anomalies := rec.anomalies + [ProcessOrphan] + [StateDirNoMatch]);
    }
    assert rec.anomalies == pc.anomalies + SharedKey(c.procs, pc.key) + StateAnomalies(c, i);
  }

  /** One process record, filled in step by step. */
  method BuildProcessRecord(c: Inputs, i: nat, stateByKey: map<string, nat>, group: seq<nat>)
    returns (rec: Record, owns: bool, taken: Option<nat>)
    requires Valid(c) && i < |c.procs| && group == Group(c.procs, c.procs[i].key, |c.procs|)
    requires (if c.procs[i].key in stateByKey then Some(stateByKey[c.procs[i].key]) else None)
             == StateFor(c.states, c.procs[i].key, |c.states|)
    ensures rec == ProcessRecord(c, i) && owns == OwnedState(c, i).Some? && taken == SocketOf(c.socks, c.procs[i].pid, 0)
  {
    rec, owns := MergeState(c, i, stateByKey, group);
    taken := FindSocket(c.socks, c.procs[i].pid);
    if taken.Some? {
      var s := c.socks[taken.value];
      rec := rec.(sources := rec.sources.(socket := true), anomalies := rec.anomalies + s.anomalies);
      if rec.socketDir == "" { rec := rec.(socketDir := s.sockDir); }
    }
    var cwd := Classified(c.procs[i], c.stats[i]);
    rec := rec.(cwdExists := cwd.exists_, cwdStatErr := cwd.err, anomalies := rec.anomalies + cwd.anomalies);
  }

  /** The records of a list of origins, in order. */
  ghost predicate Made(c: Inputs, os: seq<Origin>, out: seq<Record>)
    requires Valid(c)
  {
    |out| == |os| && forall k :: 0 <= k < |os| ==> Known(c, os[k]) && out[k] == RecordOf(c, os[k])
  }

  lemma MadeNext(c: Inputs, n: nat, out: seq<Record>)
    requires Valid(c) && n < |c.procs| && Made(c, ProcessOrigins(c, n), out)
    ensures Made(c, ProcessOrigins(c, n + 1), out + [ProcessRecord(c, n)])
  {
    var o := ProcessOrigin(c, n);
    assert Known(c, o) && RecordOf(c, o) == ProcessRecord(c, n);
  }

  /** What the pass over the processes has gathered after the first `n`. */
  ghost predicate Gathered(c: Inputs, n: nat, out: seq<Record>, used: set<string>, merged: set<string>)
    requires Valid(c) && n <= |c.procs|
  {
    && Made(c, ProcessOrigins(c, n), out)
    && (forall k :: k in used <==> Used(c, k, n))
    && (forall d :: d in merged <==> Merged(c, d, n))
  }

  lemma GatheredNext(c: Inputs, n: nat, out: seq<Record>, used: set<string>, merged: set<string>)
    requires Valid(c) && n < |c.procs| && Gathered(c, n, out, used, merged)
    ensures var taken := SocketOf(c.socks, c.procs[n].pid, 0);
            Gathered(c, n + 1, out + [ProcessRecord(c, n)],
                     if OwnedState(c, n).Some? then used + {c.procs[n].key} else used,
                     if taken.Some? then merged + {c.socks[taken.value].sockDir} else merged)
  {
    hide OwnedState, ProcessRecord, RecordOf, Known;
    MadeNext(c, n, out);
    UsedGathered(c, n, used);
    MergedGathered(c, n, merged);
  }

  lemma GatheredNone(c: Inputs)
    requires Valid(c)
    ensures Gathered(c, 0, [], {}, {})
  {
  }

  lemma UsedGathered(c: Inputs, n: nat, used: set<string>)
    requires n < |c.procs| && forall k :: k in used <==> Used(c, k, n)
    ensures var used' := if OwnedState(c, n).Some? then used + {c.procs[n].key} else used;
            forall k :: k in used' <==> Used(c, k, n + 1)
  {
    var used' := if OwnedState(c, n).Some? then used + {c.procs[n].key} else used;
    forall k ensures k in used' <==> Used(c, k, n + 1) { UsedNext(c, n, k); }
  }

  lemma MergedGathered(c: Inputs, n: nat, merged: set<string>)
    requires Valid(c) && n < |c.procs| && forall d :: d in merged <==> Merged(c, d, n)
    ensures var taken := SocketOf(c.socks, c.procs[n].pid, 0);
            var merged' := if taken.Some? then merged + {c.socks[taken.value].sockDir} else merged;
            forall d :: d in merged' <==> Merged(c, d, n + 1)
  {
    var taken := SocketOf(c.socks, c.procs[n].pid, 0);
    var merged' := if taken.Some? then merged + {c.socks[taken.value].sockDir} else merged;
    forall d ensures d in merged' <==> Merged(c, d, n + 1) { MergedNext(c, n, d); }
  }

  ghost predicate Indexes(c: Inputs, stateByKey: map<string, nat>, byKey: map<string, seq<nat>>) {
    && (forall k :: (if k in stateByKey then Some(stateByKey[k]) else None) == StateFor(c.states, k, |c.states|))
    && (forall k :: (if k in byKey then byKey[k] else []) == Group(c.procs, k, |c.procs|))
  }

  method ProcessPass(c: Inputs, stateByKey: map<string, nat>)
    returns (out: seq<Record>, used: set<string>, merged: set<string>)
    requires Valid(c) && forall k :: (if k in stateByKey then Some(stateByKey[k]) else None) == StateFor(c.states, k, |c.states|)
    ensures Gathered(c, |c.procs|, out, used, merged)
  {
    var byKey := GroupProcesses(c.procs);
    out, used, merged := [], {}, {};
    GatheredNone(c);
    hide Gathered, OwnedState, ProcessRecord, Valid;
    for i := 0 to |c.procs|
      invariant Gathered(c, i, out, used, merged)
    {
      var rec, owns, taken := OneProcess(c, i, stateByKey, byKey);
      GatheredNext(c, i, out, used, merged);
      if owns { used := used + {c.procs[i].key}; }
      if taken.Some? { merged := merged + {c.socks[taken.value].sockDir}; }
      out := out + [rec];
    }
  }

  method OneProcess(c: Inputs, i: nat, stateByKey: map<string, nat>, byKey: map<string, seq<nat>>)
    returns (rec: Record, owns: bool, taken: Option<nat>)
    requires Valid(c) && i < |c.procs| && Indexes(c, stateByKey, byKey)
    ensures rec == ProcessRecord(c, i) && owns == OwnedState(c, i).Some? && taken == SocketOf(c.socks, c.procs[i].pid, 0)
  {
    var key := c.procs[i].key;
    rec, owns, taken := BuildProcessRecord(c, i, stateByKey, if key in byKey then byKey[key] else []);
  }

  lemma UsedNext(c: Inputs, n: nat, k: string)
    requires n < |c.procs|
    ensures Used(c, k, n + 1) <==> Used(c, k, n) || (k == c.procs[n].key && OwnedState(c, n).Some?)
  {
    if Used(c, k, n + 1) {
      var i: nat :| i < n + 1 && c.procs[i].key == k && OwnedState(c, i).Some?;
      if i < n { UsedBy(c, n, i); }
    }
    if Used(c, k, n) {
      var i: nat :| i < n && c.procs[i].key == k && OwnedState(c, i).Some?;
      UsedBy(c, n + 1, i);
    }
    if k == c.procs[n].key && OwnedState(c, n).Some? { UsedBy(c, n + 1, n); }
  }

  lemma UsedBy(c: Inputs, n: nat, i: nat)
    requires i < n <= |c.procs| && OwnedState(c, i).Some?
    ensures Used(c, c.procs[i].key, n)
  {
  }

  lemma MergedNext(c: Inputs, n: nat, d: string)
    requires n < |c.procs|
    ensures Merged(c, d, n + 1) <==> Merged(c, d, n) || Takes(c, n, d)
  {
    if Merged(c, d, n + 1) {
      var i: nat :| i < n + 1 && Takes(c, i, d);
      if i < n { MergedBy(c, n, i, d); }
    }
    if Merged(c, d, n) {
      var i :| 0 <= i < n && Takes(c, i, d);
      MergedBy(c, n + 1, i, d);
    }
    if Takes(c, n, d) { MergedBy(c, n + 1, n, d); }
  }

  lemma MergedBy(c: Inputs, n: nat, i: nat, d: string)
    requires i < n <= |c.procs| && Takes(c, i, d)
    ensures Merged(c, d, n)
  {
  }

  lemma UnsetNext(flags: seq<bool>, j: nat)
    requires j < |flags|
    ensures Unset(flags[..j + 1]) == if flags[j] then Unset(flags[..j]) else Unset(flags[..j]) + [j]
  {
    assert flags[..j + 1][..j] == flags[..j];
  }

  lemma MadeStateNext(c: Inputs, js: seq<nat>, j: nat, out: seq<Record>)
    requires Valid(c) && j < |c.states| && Made(c, StateOrigins(js), out)
    ensures Made(c, StateOrigins(js + [j]), out + [StateRecord(c.states[j])])
  {
    assert Known(c, Origin(None, Some(j), None));
  }

  lemma MadeSocketNext(c: Inputs, js: seq<nat>, j: nat, out: seq<Record>)
    requires Valid(c) && j < |c.socks| && Made(c, SocketOrigins(js), out)
    ensures Made(c, SocketOrigins(js + [j]), out + [SocketRecord(c, c.socks[j])])
  {
    assert Known(c, Origin(None, None, Some(j)));
  }

  method StatePass(c: Inputs, used: set<string>) returns (out: seq<Record>)
    requires Valid(c) && forall k :: k in used <==> Used(c, k, |c.procs|)
    ensures Made(c, StateOrigins(LooseStates(c)), out)
  {
    out := [];
    ghost var flags := UsedFlags(c);
    for j := 0 to |c.states|
      invariant Made(c, StateOrigins(Unset(flags[..j])), out)
    {
      UnsetNext(flags, j);
      if c.states[j].key in used { continue; }
      MadeStateNext(c, Unset(flags[..j]), j, out);
      out := out + [StateRecord(c.states[j])];
    }
    assert flags[..|flags|] == flags;
  }

  method KeyForSocket(c: Inputs, s: SocketC, bySession: map<string, nat>) returns (key: string)
    requires forall d :: d in bySession ==> bySession[d] < |c.states|
    requires forall d :: (if d in bySession then Some(c.states[bySession[d]].key) else None) == KeyBySession(c.states, d, |c.states|)
    ensures key == SocketKey(c, s)
  {
    if s.sockDir in bySession {
      key := c.states[bySession[s.sockDir]].key;
    } else if s.syntheticKey != "" {
      key := UNKNOWN_PREFIX + s.syntheticKey;
    } else {
      key := UNKNOWN_PREFIX + c.synth(s.sockDir);
    }
  }

  method SocketPass(c: Inputs, merged: set<string>, bySession: map<string, nat>) returns (out: seq<Record>)
    requires Valid(c) && forall d :: d in merged <==> Merged(c, d, |c.procs|)
    requires forall d :: d in bySession ==> bySession[d] < |c.states|
    requires forall d :: (if d in bySession then Some(c.states[bySession[d]].key) else None) == KeyBySession(c.states, d, |c.states|)
    ensures Made(c, SocketOrigins(LooseSockets(c)), out)
  {
    out := [];
    ghost var flags := MergedFlags(c);
    for j := 0 to |c.socks|
      invariant Made(c, SocketOrigins(Unset(flags[..j])), out)
    {
      UnsetNext(flags, j);
      if c.socks[j].sockDir in merged { continue; }
      MadeSocketNext(c, Unset(flags[..j]), j, out);
      var key := KeyForSocket(c, c.socks[j], bySession);
      var rec := Record(key, 0, UNKNOWN, "", "", "", c.socks[j].sockDir, "", false, 0, false, None, false, "",
                        Sources(false, false, true), [SocketOrphan] + c.socks[j].anomalies);
      out := out + [rec];
    }
    assert flags[..|flags|] == flags;
  }

  /** The merge: every record is the one its origin deserves, in order. */
  method Reconcile(c: Inputs) returns (out: seq<Record>)
    requires Valid(c)
    ensures Made(c, Origins(c), out)
  {
    var stateByKey, bySession := IndexStates(c.states);
    var processes, used, merged := ProcessPass(c, stateByKey);
    var states := StatePass(c, used);
    var sockets := SocketPass(c, merged, bySession);
    out := processes + states + sockets;
    MadeConcat(c, ProcessOrigins(c, |c.procs|), StateOrigins(LooseStates(c)), processes, states);
    MadeConcat(c, ProcessOrigins(c, |c.procs|) + StateOrigins(LooseStates(c)), SocketOrigins(LooseSockets(c)),
               processes + states, sockets);
  }

  lemma MadeConcat(c: Inputs, a: seq<Origin>, b: seq<Origin>, x: seq<Record>, y: seq<Record>)
    requires Valid(c) && Made(c, a, x) && Made(c, b, y)
    ensures Made(c, a + b, x + y)
  {
    hide RecordOf, Known;
    forall k | 0 <= k < |a + b| ensures Known(c, (a + b)[k]) && (x + y)[k] == RecordOf(c, (a + b)[k]) {
      if k >= |a| { assert (a + b)[k] == b[k - |a|] && (x + y)[k] == y[k - |a|]; }
    }
  }

  // ---------------------------------------------------------------------------------------------
  // The counters
  // ---------------------------------------------------------------------------------------------

  datatype Summary = Summary(total: nat, withProcess: nat, withStateDir: nat, withSocket: nat, anomalies: nat,
                             duplicates: nat)

  /** The counters a result shows for its records. */
  function Counted(records: seq<Record>): Summary {
    if records == [] then Summary(0, 0, 0, 0, 0, 0)
    else
      var s, r := Counted(records[..|records| - 1]), records[|records| - 1];
      Summary(s.total + 1,
              s.withProcess + (if r.sources.process then 1 else 0),
              s.withStateDir + (if r.sources.stateDir then 1 else 0),
              s.withSocket + (if r.sources.socket then 1 else 0),
              s.anomalies + |r.anomalies|,
              s.duplicates + (if DuplicateRuntime in r.anomalies then 1 else 0))
  }

  method AssembleResult(records: seq<Record>, topAnomalies: nat) returns (s: Summary)
    ensures s == Counted(records).(anomalies := topAnomalies + Counted(records).anomalies)
  {
    s := Summary(|records|, 0, 0, 0, topAnomalies, 0);
    for i := 0 to |records|
      invariant s == Counted(records[..i]).(total := |records|, anomalies := topAnomalies + Counted(records[..i]).anomalies)
      invariant Counted(records[..i]).total == i
    {
      assert records[..i + 1][..i] == records[..i];
      var r := records[i];
      if r.sources.process { s := s.(withProcess := s.withProcess + 1); }
      if r.sources.stateDir { s := s.(withStateDir := s.withStateDir + 1); }
      if r.sources.socket { s := s.(withSocket := s.withSocket + 1); }
      s := s.(anomalies := s.anomalies + |r.anomalies|);
      var k := 0;
      while k < |r.anomalies| && r.anomalies[k] != DuplicateRuntime
        invariant 0 <= k <= |r.anomalies| && DuplicateRuntime !in r.anomalies[..k]
      {
        k := k + 1;
      }
      if k < |r.anomalies| { s := s.(duplicates := s.duplicates + 1); }
      assert k == |r.anomalies| ==> r.anomalies[..k] == r.anomalies;
    }
    assert records[..|records|] == records;
  }

  /** The source bits of a record say exactly what it was made from. */
  lemma SourcesAreOrigins(c: Inputs, k: nat)
    requires Valid(c) && k < |Origins(c)| && Known(c, Origins(c)[k])
    ensures RecordOf(c, Origins(c)[k]).sources
         == Sources(Origins(c)[k].process.Some?, Origins(c)[k].state.Some?, Origins(c)[k].socket.Some?)
  {
    OriginAt(c, k);
  }

  lemma {:induction false} CountedOrigins(os: seq<Origin>, records: seq<Record>)
    requires |os| == |records|
    requires forall k :: 0 <= k < |os| ==>
               records[k].sources == Sources(os[k].process.Some?, os[k].state.Some?, os[k].socket.Some?)
    ensures var s := Counted(records);
            && s.total == |os| && s.withProcess == Somes(ProcessesOf(os)) && s.withStateDir == Somes(States(os))
            && s.withSocket == Somes(Sockets(os))
  {
    if os != [] {
      var front := os[..|os| - 1];
      CountedOrigins(front, records[..|os| - 1]);
      assert ProcessesOf(os)[..|front|] == ProcessesOf(front);
      assert States(os)[..|front|] == States(front);
      assert Sockets(os)[..|front|] == Sockets(front);
    }
  }

  /**
   * The scan's result neither loses nor double-counts a source: with distinct pids, state keys and socket
   * directories the counters are the input sizes and the total is their sum less the merges.
   */
  method ScanResult(c: Inputs, topAnomalies: nat) returns (records: seq<Record>, s: Summary)
    requires Valid(c)
    ensures Made(c, Origins(c), records) && s.total == |records|
    ensures DistinctPids(c) && DistinctKeys(c) ==>
              && s.withProcess == |c.procs| && s.withStateDir == |c.states| && s.withSocket == |c.socks|
              && s.total == |c.procs| + |c.states| + |c.socks| - Merges(Origins(c))
  {
    records := Reconcile(c);
    s := AssembleResult(records, topAnomalies);
    forall k | 0 <= k < |records|
      ensures records[k].sources
           == Sources(Origins(c)[k].process.Some?, Origins(c)[k].state.Some?, Origins(c)[k].socket.Some?)
    {
      SourcesAreOrigins(c, k);
    }
    CountedOrigins(Origins(c), records);
    if DistinctPids(c) && DistinctKeys(c) { Conservation(c); }
  }
}
