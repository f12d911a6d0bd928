/**
 * The broker inventory: processes, state directories and socket directories joined into one list of
 * records, and the counters over that list.
 */
module Inventory {
  import opened Basics
  import opened Processes

  datatype Code =
    | BrokerJSONPidMismatch | StateDirOrphan | ProcessOrphan | SocketOrphan | CwdMissing | CwdTransientStatError
    | DuplicateRuntime | BrokerKeyCollision | StateDirNoMatch | OtherCode(name: string)

  datatype ProcessC = ProcessC(key: string, pid: int, lstart: Moment, rawCwd: string, cwdResolved: string,
                               endpoint: string, anomalies: seq<Code>)

  datatype StateC = StateC(key: string, stateDir: string, hasBrokerJSON: bool, brokerPid: int, sessionDir: string,
                           stateReadable: bool, lastJobUpdatedAt: Option<Moment>, anomalies: seq<Code>)

  datatype SocketC = SocketC(syntheticKey: string, sockDir: string, pidFromFile: int, anomalies: seq<Code>)

  datatype Sources = Sources(process: bool, stateDir: bool, socket: bool)

  datatype Record = Record(key: string, pid: int, lstart: Moment, cwd: string, cwdResolved: string, endpoint: string,
                           socketDir: string, stateDir: string, hasBrokerJSON: bool, brokerPid: int, stateReadable: bool,
                           lastJobUpdatedAt: Option<Moment>, cwdExists: bool, cwdStatErr: string, sources: Sources,
                           anomalies: seq<Code>)

  /** What the stat of one working directory answers, or why it was not waited for. */
  datatype CwdAnswer = CtxCanceled | TimedOut | Found | NoEntry | Denied | OtherError

  datatype Inputs = Inputs(procs: seq<ProcessC>, states: seq<StateC>, socks: seq<SocketC>, stats: seq<CwdAnswer>,
                           synth: string -> string)

  predicate Valid(c: Inputs) { |c.stats| == |c.procs| }

  // ---------------------------------------------------------------------------------------------
  // Which source goes where
  // ---------------------------------------------------------------------------------------------

  /** The inputs a record was made from, by position. */
  datatype Origin = Origin(process: Option<nat>, state: Option<nat>, socket: Option<nat>)

  /** The last of the first `n` state directories with this key: later ones replace earlier ones in the index. */
  function StateFor(states: seq<StateC>, key: string, n: nat): (j: Option<nat>)
    requires n <= |states|
    ensures j.None? ==> forall k :: 0 <= k < n ==> states[k].key != key
    ensures j.Some? ==> j.value < n && states[j.value].key == key && forall k :: j.value < k < n ==> states[k].key != key
  {
    if n == 0 then None else if states[n - 1].key == key then Some(n - 1) else StateFor(states, key, n - 1)
  }

  /** Positions of the first `n` processes with this key. */
  function Group(procs: seq<ProcessC>, key: string, n: nat): (g: seq<nat>)
    requires n <= |procs|
    ensures forall i: nat :: i in g <==> i < n && procs[i].key == key
    ensures forall a :: 0 <= a < |g| ==> g[a] < n
    ensures forall a, b :: 0 <= a < b < |g| ==> g[a] < g[b]
  {
    if n == 0 then []
    else
      var g := Group(procs, key, n - 1);
      if procs[n - 1].key == key then g + [n - 1] else g
  }

  /**
   * The state directory that process `i` owns.  A process alone on its key owns the key's directory; of
   * several, only the one whose pid the directory names.
   */
  function OwnedState(c: Inputs, i: nat): Option<nat>
    requires i < |c.procs|
  {
    var p := c.procs[i];
    var j := StateFor(c.states, p.key, |c.states|);
    if j.None? then None
    else if |Group(c.procs, p.key, |c.procs|)| == 1 then j
    else if c.states[j.value].brokerPid != 0 && c.states[j.value].brokerPid == p.pid then j
    else None
  }

  /** The first socket directory at or after `from` whose pid file names this pid. */
  function SocketOf(socks: seq<SocketC>, pid: int, from: nat): (j: Option<nat>)
    requires from <= |socks|
    ensures j.Some? ==> from <= j.value < |socks| && socks[j.value].pidFromFile == pid != 0
                        && forall k :: from <= k < j.value ==> socks[k].pidFromFile != pid
    ensures j.None? ==> forall k :: from <= k < |socks| ==> socks[k].pidFromFile == 0 || socks[k].pidFromFile != pid
    decreases |socks| - from
  {
    if from == |socks| then None
    else if socks[from].pidFromFile != 0 && socks[from].pidFromFile == pid then Some(from)
    else SocketOf(socks, pid, from + 1)
  }

  /** Some process owns the directory of this key. */
  predicate Used(c: Inputs, key: string, n: nat)
    requires n <= |c.procs|
  {
    exists i :: 0 <= i < n && c.procs[i].key == key && OwnedState(c, i).Some?
  }

  /** Some process took a socket with this directory. */
  predicate Merged(c: Inputs, dir: string, n: nat)
    requires n <= |c.procs|
  {
    exists i :: 0 <= i < n && Takes(c, i, dir)
  }

  predicate Takes(c: Inputs, i: nat, dir: string)
    requires i < |c.procs|
  {
    var j := SocketOf(c.socks, c.procs[i].pid, 0);
    j.Some? && c.socks[j.value].sockDir == dir
  }

  /** Positions whose flag is not set, in order. */
  function Unset(flags: seq<bool>): seq<nat> {
    if flags == [] then []
    else
      var n := |flags| - 1;
      Unset(flags[..n]) + if flags[n] then [] else [n]
  }

  lemma {:induction false} UnsetFacts(flags: seq<bool>)
    ensures var r := Unset(flags);
            && (forall j: nat :: j in r <==> j < |flags| && !flags[j])
            && (forall a :: 0 <= a < |r| ==> r[a] < |flags|)
            && (forall a, b :: 0 <= a < b < |r| ==> r[a] < r[b])
  {
    if flags != [] { UnsetFacts(flags[..|flags| - 1]); }
  }

  function UsedFlags(c: Inputs): seq<bool> {
    seq(|c.states|, j requires 0 <= j < |c.states| => Used(c, c.states[j].key, |c.procs|))
  }

  function MergedFlags(c: Inputs): seq<bool> {
    seq(|c.socks|, j requires 0 <= j < |c.socks| => Merged(c, c.socks[j].sockDir, |c.procs|))
  }

  /** Directories left over. */
  function LooseStates(c: Inputs): seq<nat> { Unset(UsedFlags(c)) }

  function LooseSockets(c: Inputs): seq<nat> { Unset(MergedFlags(c)) }

  function ProcessOrigin(c: Inputs, i: nat): Origin
    requires i < |c.procs|
  {
    Origin(Some(i), OwnedState(c, i), SocketOf(c.socks, c.procs[i].pid, 0))
  }

  function ProcessOrigins(c: Inputs, n: nat): (os: seq<Origin>)
    requires n <= |c.procs|
    ensures |os| == n && forall i :: 0 <= i < n ==> os[i] == ProcessOrigin(c, i)
  {
    if n == 0 then [] else ProcessOrigins(c, n - 1) + [ProcessOrigin(c, n - 1)]
  }

  function StateOrigins(js: seq<nat>): (os: seq<Origin>)
    ensures |os| == |js| && forall k :: 0 <= k < |js| ==> os[k] == Origin(None, Some(js[k]), None)
  {
    if js == [] then [] else StateOrigins(js[..|js| - 1]) + [Origin(None, Some(js[|js| - 1]), None)]
  }

  function SocketOrigins(js: seq<nat>): (os: seq<Origin>)
    ensures |os| == |js| && forall k :: 0 <= k < |js| ==> os[k] == Origin(None, None, Some(js[k]))
  {
    if js == [] then [] else SocketOrigins(js[..|js| - 1]) + [Origin(None, None, Some(js[|js| - 1]))]
  }

  /** Where every record comes from, in the order the records are emitted. */
  function Origins(c: Inputs): seq<Origin> {
    ProcessOrigins(c, |c.procs|) + StateOrigins(LooseStates(c)) + SocketOrigins(LooseSockets(c))
  }

  // ---------------------------------------------------------------------------------------------
  // Conservation
  // ---------------------------------------------------------------------------------------------

  ghost predicate DistinctPids(c: Inputs) {
    forall a, b :: 0 <= a < b < |c.procs| ==> c.procs[a].pid != c.procs[b].pid
  }

  /** A state directory is lost when its key is owned but a later directory of that key hides it. */
  predicate StateLost(c: Inputs, j: nat)
    requires j < |c.states|
  {
    Used(c, c.states[j].key, |c.procs|) && StateFor(c.states, c.states[j].key, |c.states|) != Some(j)
  }

  /** A socket directory is lost when another entry for the same directory was taken and this one was not. */
  predicate SocketLost(c: Inputs, j: nat)
    requires j < |c.socks|
  {
    Merged(c, c.socks[j].sockDir, |c.procs|) && forall i :: 0 <= i < |c.procs| ==> !TakesEntry(c, i, j)
  }

  predicate TakesEntry(c: Inputs, i: nat, j: nat)
    requires i < |c.procs|
  {
    SocketOf(c.socks, c.procs[i].pid, 0) == Some(j)
  }

  /** How many records carry the source that `column` selects. */
  function Somes(col: seq<Option<nat>>): nat {
    if col == [] then 0 else Somes(col[..|col| - 1]) + if col[|col| - 1].Some? then 1 else 0
  }

  ghost predicate OnceEach(col: seq<Option<nat>>) {
    forall a, b :: 0 <= a < b < |col| && col[a].Some? ==> col[a] != col[b]
  }

  function States(os: seq<Origin>): seq<Option<nat>> { seq(|os|, i requires 0 <= i < |os| => os[i].state) }

  function Sockets(os: seq<Origin>): seq<Option<nat>> { seq(|os|, i requires 0 <= i < |os| => os[i].socket) }

  function ProcessesOf(os: seq<Origin>): seq<Option<nat>> { seq(|os|, i requires 0 <= i < |os| => os[i].process) }

  function Values(col: seq<Option<nat>>): set<nat> {
    set x | x in col && x.Some? :: x.value
  }

  lemma {:induction false} CountOnce(col: seq<Option<nat>>)
    requires OnceEach(col)
    ensures |Values(col)| == Somes(col)
  {
    if col != [] {
      var front, last := col[..|col| - 1], col[|col| - 1];
      CountOnce(front);
      assert col == front + [last];
      if last.Some? {
        assert forall x :: x in front && x.Some? ==> x.value != last.value;
        assert Values(col) == Values(front) + {last.value};
      } else {
        assert Values(col) == Values(front);
      }
    }
  }

  function Below(n: nat): (s: set<nat>)
    ensures |s| == n && forall j: nat :: j in s <==> j < n
  {
    if n == 0 then {} else Below(n - 1) + {n - 1}
  }

  /** A column that shows each of 0..n exactly once counts to n. */
  lemma CountsAll(col: seq<Option<nat>>, n: nat)
    requires OnceEach(col) && forall j: nat :: Some(j) in col <==> j < n
    ensures Somes(col) == n
  {
    CountOnce(col);
    assert Values(col) == Below(n) by {
      forall j: nat ensures j in Values(col) <==> j < n { assert Some(j) in col <==> j < n; }
    }
  }

  /** Two processes with distinct pids never own the same directory. */
  lemma OwnersDiffer(c: Inputs, a: nat, b: nat)
    requires DistinctPids(c) && a < b < |c.procs| && OwnedState(c, a).Some?
    ensures OwnedState(c, a) != OwnedState(c, b)
  {
    if c.procs[a].key == c.procs[b].key {
      var g := Group(c.procs, c.procs[a].key, |c.procs|);
      assert a in g && b in g;
    }
  }

  lemma PartsAt(ps: seq<Origin>, states: seq<nat>, socks: seq<nat>, k: nat)
    requires k < |ps| + |states| + |socks|
    ensures var os := ps + StateOrigins(states) + SocketOrigins(socks);
            if k < |ps| then os[k] == ps[k]
            else if k < |ps| + |states| then var j := states[k - |ps|]; os[k] == Origin(None, Some(j), None) && j in states
            else var j := socks[k - |ps| - |states|]; os[k] == Origin(None, None, Some(j)) && j in socks
  {
  }

  /** What stands at each position of the emitted list. */
  lemma OriginAt(c: Inputs, k: nat)
    requires k < |Origins(c)|
    ensures var n, states, socks := |c.procs|, LooseStates(c), LooseSockets(c);
            if k < n then Origins(c)[k] == ProcessOrigin(c, k)
            else if k < n + |states| then
              var j := states[k - n]; Origins(c)[k] == Origin(None, Some(j), None) && j in states
            else
              var j := socks[k - n - |states|]; Origins(c)[k] == Origin(None, None, Some(j)) && j in socks
  {
    PartsAt(ProcessOrigins(c, |c.procs|), LooseStates(c), LooseSockets(c), k);
  }

  lemma StatePairDiffers(c: Inputs, a: nat, b: nat)
    requires DistinctPids(c) && a < b < |Origins(c)| && Origins(c)[a].state.Some?
    ensures Origins(c)[a].state != Origins(c)[b].state
  {
    OriginAt(c, a);
    OriginAt(c, b);
    if b < |c.procs| {
      OwnersDiffer(c, a, b);
    } else {
      UnsetFacts(UsedFlags(c));
      if a < |c.procs| { OwnedIsUsed(c, a); }
    }
  }

  lemma OwnedIsUsed(c: Inputs, i: nat)
    requires i < |c.procs| && OwnedState(c, i).Some?
    ensures Used(c, c.states[OwnedState(c, i).value].key, |c.procs|)
  {
    assert Used(c, c.procs[i].key, |c.procs|);
  }

  lemma StatesOnce(c: Inputs)
    requires DistinctPids(c)
    ensures OnceEach(States(Origins(c)))
  {
    var os := Origins(c);
    forall a, b | 0 <= a < b < |os| && os[a].state.Some? ensures os[a].state != os[b].state { StatePairDiffers(c, a, b); }
  }

  lemma SocketsOnce(c: Inputs)
    requires DistinctPids(c)
    ensures OnceEach(Sockets(Origins(c)))
  {
    UnsetFacts(MergedFlags(c));
    var os := Origins(c);
    forall a, b | 0 <= a < b < |os| && os[a].socket.Some? ensures os[a].socket != os[b].socket {
      OriginAt(c, a);
      OriginAt(c, b);
      if a < |c.procs| <= b {
        assert Takes(c, a, c.socks[os[a].socket.value].sockDir);
      }
    }
  }

  lemma OwnedIsNotLost(c: Inputs, i: nat)
    requires i < |c.procs| && OwnedState(c, i).Some?
    ensures var j := OwnedState(c, i).value; j < |c.states| && !StateLost(c, j)
  {
  }

  lemma LooseIsNotLost(c: Inputs, j: nat)
    requires j in LooseStates(c)
    ensures j < |c.states| && !StateLost(c, j)
  {
    UnsetFacts(UsedFlags(c));
  }

  lemma StateShown(c: Inputs, k: nat)
    requires k < |Origins(c)| && Origins(c)[k].state.Some?
    ensures var j := Origins(c)[k].state.value; j < |c.states| && !StateLost(c, j)
  {
    OriginAt(c, k);
    if k < |c.procs| { OwnedIsNotLost(c, k); } else { LooseIsNotLost(c, Origins(c)[k].state.value); }
  }

  lemma StateKept(c: Inputs, j: nat) returns (k: nat)
    requires j < |c.states| && !StateLost(c, j)
    ensures k < |Origins(c)| && Origins(c)[k].state == Some(j)
  {
    UnsetFacts(UsedFlags(c));
    var n, loose := |c.procs|, LooseStates(c);
    if Used(c, c.states[j].key, n) {
      k :| 0 <= k < n && c.procs[k].key == c.states[j].key && OwnedState(c, k).Some?;
    } else {
      assert j in loose;
      var i :| 0 <= i < |loose| && loose[i] == j;
      k := n + i;
    }
    OriginAt(c, k);
  }

  lemma SocketShown(c: Inputs, k: nat)
    requires k < |Origins(c)| && Origins(c)[k].socket.Some?
    ensures var j := Origins(c)[k].socket.value; j < |c.socks| && !SocketLost(c, j)
  {
    UnsetFacts(MergedFlags(c));
    OriginAt(c, k);
    if k < |c.procs| { assert TakesEntry(c, k, Origins(c)[k].socket.value); }
  }

  lemma SocketKept(c: Inputs, j: nat) returns (k: nat)
    requires j < |c.socks| && !SocketLost(c, j)
    ensures k < |Origins(c)| && Origins(c)[k].socket == Some(j)
  {
    UnsetFacts(MergedFlags(c));
    var n, m := |c.procs|, |c.procs| + |LooseStates(c)|;
    var loose := LooseSockets(c);
    if Merged(c, c.socks[j].sockDir, n) {
      k :| 0 <= k < n && TakesEntry(c, k, j);
    } else {
      assert j in loose;
      var i :| 0 <= i < |loose| && loose[i] == j;
      k := m + i;
    }
    OriginAt(c, k);
  }

  lemma StateAppears(c: Inputs, j: nat)
    ensures Some(j) in States(Origins(c)) <==> j < |c.states| && !StateLost(c, j)
  {
    var col := States(Origins(c));
    if Some(j) in col {
      var k :| 0 <= k < |col| && col[k] == Some(j);
      StateShown(c, k);
    }
    if j < |c.states| && !StateLost(c, j) {
      var k := StateKept(c, j);
      assert col[k] == Some(j);
    }
  }

  lemma SocketAppears(c: Inputs, j: nat)
    ensures Some(j) in Sockets(Origins(c)) <==> j < |c.socks| && !SocketLost(c, j)
  {
    var col := Sockets(Origins(c));
    if Some(j) in col {
      var k :| 0 <= k < |col| && col[k] == Some(j);
      SocketShown(c, k);
    }
    if j < |c.socks| && !SocketLost(c, j) {
      var k := SocketKept(c, j);
      assert col[k] == Some(j);
    }
  }

  lemma ProcessAppears(c: Inputs, i: nat)
    ensures Some(i) in ProcessesOf(Origins(c)) <==> i < |c.procs|
  {
    var col := ProcessesOf(Origins(c));
    if i < |c.procs| {
      OriginAt(c, i);
      assert col[i] == Some(i);
    }
    if Some(i) in col {
      var k :| 0 <= k < |col| && col[k] == Some(i);
      OriginAt(c, k);
    }
  }

  lemma ProcessesOnce(c: Inputs)
    ensures OnceEach(ProcessesOf(Origins(c)))
  {
    var os := Origins(c);
    forall a, b | 0 <= a < b < |os| && os[a].process.Some? ensures os[a].process != os[b].process {
      OriginAt(c, a);
      OriginAt(c, b);
    }
  }

  /**
   * With distinct pids no source is counted twice: every process is in exactly one record, and every
   * state and socket directory in exactly one record unless it is lost, in which case it is in none.
   */
  lemma NothingIsCountedTwice(c: Inputs)
    requires DistinctPids(c)
    ensures OnceEach(ProcessesOf(Origins(c))) && OnceEach(States(Origins(c))) && OnceEach(Sockets(Origins(c)))
    ensures forall i: nat :: Some(i) in ProcessesOf(Origins(c)) <==> i < |c.procs|
    ensures forall j: nat :: Some(j) in States(Origins(c)) <==> j < |c.states| && !StateLost(c, j)
    ensures forall j: nat :: Some(j) in Sockets(Origins(c)) <==> j < |c.socks| && !SocketLost(c, j)
  {
    ProcessesOnce(c);
    StatesOnce(c);
    SocketsOnce(c);
    forall i: nat ensures Some(i) in ProcessesOf(Origins(c)) <==> i < |c.procs| { ProcessAppears(c, i); }
    forall j: nat ensures Some(j) in States(Origins(c)) <==> j < |c.states| && !StateLost(c, j) { StateAppears(c, j); }
    forall j: nat ensures Some(j) in Sockets(Origins(c)) <==> j < |c.socks| && !SocketLost(c, j) { SocketAppears(c, j); }
  }

  ghost predicate DistinctKeys(c: Inputs) {
    && (forall a, b :: 0 <= a < b < |c.states| ==> c.states[a].key != c.states[b].key)
    && (forall a, b :: 0 <= a < b < |c.socks| ==> c.socks[a].sockDir != c.socks[b].sockDir)
  }

  lemma SameDir(c: Inputs, k: nat, j: nat)
    requires DistinctKeys(c) && k < |c.socks| && j < |c.socks| && c.socks[k].sockDir == c.socks[j].sockDir
    ensures k == j
  {
  }

  /** With distinct keys and socket directories as well, nothing is lost. */
  lemma NothingIsLost(c: Inputs)
    requires DistinctKeys(c)
    ensures forall j: nat :: j < |c.states| ==> !StateLost(c, j)
    ensures forall j: nat :: j < |c.socks| ==> !SocketLost(c, j)
  {
    forall j: nat | j < |c.socks| ensures !SocketLost(c, j) {
      if Merged(c, c.socks[j].sockDir, |c.procs|) {
        var i :| 0 <= i < |c.procs| && Takes(c, i, c.socks[j].sockDir);
        var k := SocketOf(c.socks, c.procs[i].pid, 0).value;
        SameDir(c, k, j);
        assert TakesEntry(c, i, j);
      }
    }
  }

  /** Records that merged a state directory or a socket into a process. */
  function Merges(os: seq<Origin>): nat {
    if os == [] then 0
    else
      var o := os[|os| - 1];
      Merges(os[..|os| - 1]) + (if o.process.Some? && o.state.Some? then 1 else 0)
      + (if o.process.Some? && o.socket.Some? then 1 else 0)
  }

  /** Every record has a source, and a state directory meets a socket only through a process. */
  predicate ProperOrigin(o: Origin) {
    o.process.Some? || (o.state.Some? && o.socket.None?) || (o.state.None? && o.socket.Some?)
  }

  lemma {:induction false} TotalIsSum(os: seq<Origin>)
    requires forall k :: 0 <= k < |os| ==> ProperOrigin(os[k])
    ensures |os| + Merges(os) == Somes(ProcessesOf(os)) + Somes(States(os)) + Somes(Sockets(os))
  {
    if os != [] {
      var front := os[..|os| - 1];
      TotalIsSum(front);
      assert ProperOrigin(os[|os| - 1]);
      assert ProcessesOf(os)[..|front|] == ProcessesOf(front);
      assert States(os)[..|front|] == States(front);
      assert Sockets(os)[..|front|] == Sockets(front);
    }
  }

  lemma ProperOrigins(c: Inputs)
    ensures forall k :: 0 <= k < |Origins(c)| ==> ProperOrigin(Origins(c)[k])
  {
    forall k | 0 <= k < |Origins(c)| ensures ProperOrigin(Origins(c)[k]) { OriginAt(c, k); }
  }

  lemma CountersMatch(c: Inputs, os: seq<Origin>)
    requires DistinctPids(c) && DistinctKeys(c) && os == Origins(c)
    ensures Somes(ProcessesOf(os)) == |c.procs| && Somes(States(os)) == |c.states| && Somes(Sockets(os)) == |c.socks|
  {
    NothingIsCountedTwice(c);
    NothingIsLost(c);
    CountsAll(ProcessesOf(os), |c.procs|);
    CountsAll(States(os), |c.states|);
    CountsAll(Sockets(os), |c.socks|);
  }

  /**
   * Conservation.  With distinct pids, state keys and socket directories, the three counters are the
   * three input sizes, and the total is their sum less the merges.
   */
  lemma Conservation(c: Inputs)
    requires DistinctPids(c) && DistinctKeys(c)
    ensures var os := Origins(c);
            && Somes(ProcessesOf(os)) == |c.procs| && Somes(States(os)) == |c.states| && Somes(Sockets(os)) == |c.socks|
            && |os| == |c.procs| + |c.states| + |c.socks| - Merges(os)
  {
    CountersMatch(c, Origins(c));
    ProperOrigins(c);
    TotalIsSum(Origins(c));
  }
}
