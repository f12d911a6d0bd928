/**
 * The agent-frame table under concurrent hook handlers.
 *
 * A handler reads one row, computes the next subagent list from what it read, and writes the row back
 * only if `last_seen_at` still holds the value it read; otherwise it reads again, three times at most.
 * Other writers update single columns without looking at the list, insert rows, delete rows, or fold a
 * child frame away: they attach a proxy reference for the child to another frame, or find one there, and
 * then delete the child's row if it has not been touched since it was read.  Every database statement is one step;
 * steps of different handlers interleave in any order, and processes may die between them.
 */
module FrameRuns {
  import opened Basics
  import opened Subagents

  const MAX_ATTEMPTS: nat := 3

  /** A frame's unique key: the pane and the process that owns the frame. */
  datatype Ident = Ident(pane: string, proc: Proc)

  datatype Row = Row(fid: nat, agentType: string, ppid: int, status: string, startedAt: int, verified: bool,
                     refs: seq<Ref>, lastSeen: int)

  type Table = map<Ident, Row>

  /** The row a handler writes, given the row it read. */
  function ApplyRow(m: Mutation, stamp: int, live: set<Proc>, row: Row): Option<Row> {
    var next := Apply(m, live, row.refs);
    if next.None? then None
    else
      var r := row.(refs := next.value, lastSeen := stamp);
      Some(match m
           case FailNative(_, status) => r.(status := status)
           case ResetSession(_, agentType, ppid, status) =>
             r.(agentType := agentType, ppid := ppid, status := status, verified := true)
           case _ => r)
  }

  // ---------------------------------------------------------------------------------------------
  // The sequential reference: writes applied whole, one at a time, to the current table
  // ---------------------------------------------------------------------------------------------

  datatype Write =
    | Insert(id: Ident, row: Row)
    | Mutate(id: Ident, m: Mutation, stamp: int, live: set<Proc>)
    | HookPath(id: Ident, agentType: string, ppid: int, status: string, stamp: int)
    | StatusOnly(id: Ident, status: string, stamp: int)
    | Remove(id: Ident)

  /** Can the write be carried out on this table? */
  predicate Applies(rows: Table, w: Write) {
    match w
    case Insert(id, _) => id !in rows
    case Mutate(id, m, stamp, live) => id in rows && ApplyRow(m, stamp, live, rows[id]).Some?
    case _ => w.id in rows
  }

  function Perform(rows: Table, w: Write): Table
    requires Applies(rows, w)
  {
    match w
    case Insert(id, row) => rows[id := row]
    case Mutate(id, m, stamp, live) => rows[id := ApplyRow(m, stamp, live, rows[id]).value]
    case HookPath(id, agentType, ppid, status, stamp) =>
      rows[id := rows[id].(agentType := agentType, ppid := ppid, status := status, verified := true, lastSeen := stamp)]
    case StatusOnly(id, status, stamp) => rows[id := rows[id].(status := status, lastSeen := stamp)]
    case Remove(id) => rows - {id}
  }

  /** A committed write, and the call that made it (None for the writers that do not retry). */
  datatype Entry = Entry(caller: Option<nat>, w: Write)

  /** The table after a log of writes done strictly one after another, or None if one cannot be done. */
  function Replay(log: seq<Entry>): Option<Table> {
    if log == [] then Some(map[])
    else
      var before := Replay(log[..|log| - 1]);
      var w := log[|log| - 1].w;
      if before.None? || !Applies(before.value, w) then None else Some(Perform(before.value, w))
  }

  // ---------------------------------------------------------------------------------------------
  // The concurrent system
  // ---------------------------------------------------------------------------------------------

  datatype Outcome = Committed | NothingToDo | RowGone | Exhausted

  datatype Phase =
    | Ready                                    // holds a row version it read
    | Computed(next: Row, live: set<Proc>)     // holds the row it wants to write
    | Conflicted                               // the compare-and-swap failed; about to read again
    | Folding                                  // proxy attached; about to delete the child's row
    | Leftover                                 // proxy found attached; about to delete the child's row
    | Done(outcome: Outcome)

  /** The child frame that a fold read from the pane's list. */
  datatype Victim = Victim(id: Ident, row: Row, examined: bool)

  datatype Call = Call(target: Ident, m: Mutation, stamp: int, snap: Row, attempt: nat, fold: Option<Victim>,
                       phase: Phase)

  /**
   * `dead` is the set of process identities that have exited; an identity never comes back.  `owed`,
   * `fids` and `used` only record history: which identities have been represented in the table and
   * not been ended since, which frame ids and which (frame id, stamp) pairs have ever been written.
   */
  datatype State = State(rows: Table, calls: map<nat, Call>, log: seq<Entry>, dead: set<Proc>, owed: set<Ident>,
                         fids: set<nat>, used: set<(nat, int)>)

  const INIT := State(map[], map[], [], {}, {}, {}, {})

  datatype Event =
    | Plain(w: Write)                          // insert, column update or delete by a writer that does not retry
    | Die(p: Proc)
    | Begin(k: nat, id: Ident, m: Mutation, stamp: int)
    | Reread(k: nat)
    | Scan(k: nat, victim: Ident)
    | FindLeftover(k: nat, id: Ident, victim: Ident)
    | Examine(k: nat, unread: set<int>)
    | Compute(k: nat, unread: set<int>)
    | Commit(k: nat)
    | Reload(k: nat)
    | FoldAway(k: nat)

  /** Proxies of `refs` whose process is alive with a readable, matching start time. */
  function Verified(refs: seq<Ref>, dead: set<Proc>, unread: set<int>): set<Proc> {
    set p | p in ProxyProcs(refs) && p !in dead && p.pid !in unread
  }

  /** Does the row hold state that a fold must not destroy?  An unreadable start time counts as yes. */
  predicate HasOwnedState(refs: seq<Ref>, dead: set<Proc>, unread: set<int>) {
    exists r :: r in refs && (!r.proxy || r.proc !in dead || r.proc.pid in unread)
  }

  /** The compare-and-swap test: same frame, and `last_seen_at` still as it was read. */
  predicate Unchanged(rows: Table, id: Ident, read: Row) {
    id in rows && rows[id].fid == read.fid && rows[id].lastSeen == read.lastSeen
  }

  predicate InPhase(s: State, k: nat, ready: bool, computed: bool) {
    k in s.calls && ((ready && s.calls[k].phase.Ready?) || (computed && s.calls[k].phase.Computed?))
  }

  /** The call is about to delete the child's row. */
  predicate Deletes(p: Phase) { p.Folding? || p.Leftover? }

  predicate Enabled(s: State, e: Event) {
    match e
    case Plain(w) =>
      && Applies(s.rows, w) && !w.Mutate?
      && (w.Insert? ==> w.row.refs == [] && w.row.fid !in s.fids)
    case Die(p) => true
    case Begin(k, id, m, stamp) =>
      && k !in s.calls && id in s.rows
      && (m.ResetSession? ==> m.baseline == NativeKeys(s.rows[id].refs))
      && (m.AttachProxy? || m.UpsertBroker? ==> m.proc != id.proc)
    case Reread(k) => InPhase(s, k, true, false) && s.calls[k].attempt == 0 && s.calls[k].target in s.rows
                      && !s.calls[k].m.ResetSession?
    case Scan(k, v) =>
      && InPhase(s, k, true, false) && s.calls[k].fold.None? && v in s.rows
      && v != s.calls[k].target && v.pane == s.calls[k].target.pane
      && s.calls[k].m.AttachProxy? && s.calls[k].m.proc == v.proc
      && s.rows[v].agentType != s.calls[k].snap.agentType
    case FindLeftover(k, id, v) =>
      && k !in s.calls && id in s.rows && v in s.rows && v != id && v.pane == id.pane
      && v.proc in ProxyProcs(s.rows[id].refs) && s.rows[v].agentType != s.rows[id].agentType
    case Examine(k, unread) =>
      && k in s.calls && (s.calls[k].phase.Ready? || s.calls[k].phase.Leftover?) && s.calls[k].fold.Some?
      && !HasOwnedState(s.calls[k].fold.value.row.refs, s.dead, unread)
    case Compute(k, _) =>
      InPhase(s, k, true, false) && (s.calls[k].fold.Some? ==> s.calls[k].fold.value.examined)
    case Commit(k) => InPhase(s, k, false, true)
    case Reload(k) => k in s.calls && s.calls[k].phase.Conflicted?
    case FoldAway(k) => k in s.calls && Deletes(s.calls[k].phase) && s.calls[k].fold.Some? && s.calls[k].fold.value.examined
  }

  /** The identities that a row stands for through its proxies. */
  function Proxied(id: Ident, row: Row): set<Ident> {
    set p | p in ProxyProcs(row.refs) :: Ident(id.pane, p)
  }

  function Put(s: State, k: nat, c: Call): State {
    s.(calls := s.calls[k := c])
  }

  function Write1(s: State, caller: Option<nat>, w: Write): State
    requires Applies(s.rows, w)
  {
    var rows := Perform(s.rows, w);
    var s1 := s.(rows := rows, log := s.log + [Entry(caller, w)]);
    if w.Remove? then s1
    else s1.(fids := s.fids + {rows[w.id].fid}, used := s.used + {(rows[w.id].fid, rows[w.id].lastSeen)})
  }

  /** Which identities are owed a representation after a write by some handler. */
  function OwedAfter(s: State, w: Write): set<Ident>
    requires Applies(s.rows, w)
  {
    match w
    case Insert(id, _) => s.owed + {id}
    case Remove(id) => s.owed - {id} - Proxied(id, s.rows[id])
    case Mutate(id, m, _, _) =>
      (match m
       case AttachProxy(_, p, _) => s.owed + {Ident(id.pane, p)}
       case UpsertBroker(p, _, _) => s.owed + {Ident(id.pane, p)}
       case DetachProxy(p) => s.owed - {Ident(id.pane, p)}
       case DetachTurn(p, _) => s.owed - {Ident(id.pane, p)}
       case _ => s.owed)
    case _ => s.owed
  }

  function Step(s: State, e: Event): State
    requires Enabled(s, e)
  {
    match e
    case Plain(w) => Write1(s, None, w).(owed := OwedAfter(s, w))
    case Die(p) => s.(dead := s.dead + {p})
    case Begin(k, id, m, stamp) => Put(s, k, Call(id, m, stamp, s.rows[id], 0, None, Ready))
    case Reread(k) => Put(s, k, s.calls[k].(snap := s.rows[s.calls[k].target]))
    case Scan(k, v) => Put(s, k, s.calls[k].(fold := Some(Victim(v, s.rows[v], false))))
    case FindLeftover(k, id, v) =>
      Put(s, k, Call(id, AttachProxy(s.rows[v].agentType, v.proc, 0), 0, s.rows[id], 0, Some(Victim(v, s.rows[v], false)), Leftover))
    case Examine(k, _) => Put(s, k, s.calls[k].(fold := Some(s.calls[k].fold.value.(examined := true))))
    case Compute(k, unread) =>
      var c := s.calls[k];
      var live := Verified(c.snap.refs, s.dead, unread);
      var next := ApplyRow(c.m, c.stamp, live, c.snap);
      Put(s, k, c.(phase := if next.None? then Done(NothingToDo) else Computed(next.value, live)))
    case Commit(k) => StepCommit(s, k)
    case Reload(k) =>
      var c := s.calls[k];
      if c.target !in s.rows then Put(s, k, c.(phase := Done(RowGone)))
      else if c.attempt + 1 == MAX_ATTEMPTS then Put(s, k, c.(phase := Done(Exhausted)))
      else Put(s, k, c.(snap := s.rows[c.target], attempt := c.attempt + 1, phase := Ready))
    case FoldAway(k) =>
      var c := s.calls[k];
      var v := c.fold.value;
      var s1 := if Unchanged(s.rows, v.id, v.row) then Write1(s, Some(k), Remove(v.id)) else s;
      Put(s1, k, c.(phase := Done(if c.phase.Folding? then Committed else NothingToDo)))
  }

  function StepCommit(s: State, k: nat): State
    requires InPhase(s, k, false, true)
  {
    var c := s.calls[k];
    if !Unchanged(s.rows, c.target, c.snap) then Put(s, k, c.(phase := Conflicted))
    else
      var w := Mutate(c.target, c.m, c.stamp, c.phase.live);
      var rows := s.rows[c.target := c.phase.next];
      var s1 := s.(rows := rows, log := s.log + [Entry(Some(k), w)],
                   fids := s.fids + {c.phase.next.fid}, used := s.used + {(c.phase.next.fid, c.phase.next.lastSeen)},
                   owed := if Applies(s.rows, w) then OwedAfter(s, w) else s.owed);
      Put(s1, k, c.(phase := if c.fold.Some? then Folding else Done(Committed)))
  }

  /** Events that are not enabled when their turn comes have no effect. */
  function Exec(evs: seq<Event>): State {
    if evs == [] then INIT
    else
      var s := Exec(evs[..|evs| - 1]);
      var e := evs[|evs| - 1];
      if Enabled(s, e) then Step(s, e) else s
  }

  // ---------------------------------------------------------------------------------------------
  // Stamps: when a compare-and-swap on last_seen_at detects every intervening write
  // ---------------------------------------------------------------------------------------------

  /** The row that an event writes under a stamp of its own, if it does. */
  function Stamped(s: State, e: Event): Option<(Ident, Row)>
    requires Enabled(s, e)
  {
    match e
    case Plain(w) => if w.Remove? then None else Some((w.id, Perform(s.rows, w)[w.id]))
    case Commit(k) =>
      var c := s.calls[k];
      if Unchanged(s.rows, c.target, c.snap) then Some((c.target, c.phase.next)) else None
    case _ => None
  }

  function Writer(e: Event): Option<nat> {
    if e.Commit? then Some(e.k) else None
  }

  /** A row version that call `c` read and may still base a compare-and-swap on. */
  predicate Holds(c: Call, id: Ident, read: Row) {
    || ((c.phase.Ready? || c.phase.Computed?) && c.target == id && c.snap == read)
    || (c.fold.Some? && !c.phase.Done? && c.fold.value.id == id && c.fold.value.row == read)
  }

  predicate Mistaken(read: Row, current: Row) {
    read.fid == current.fid && read.lastSeen == current.lastSeen && read != current
  }

  /** No handler can take the current version of a row for the different one that it read. */
  ghost predicate NoStale(s: State) {
    forall k, id, read :: k in s.calls && id in s.rows && Holds(s.calls[k], id, read) ==> !Mistaken(read, s.rows[id])
  }

  /** The event's stamp is not the one under which another handler holds a different version of the row. */
  ghost predicate Safe(s: State, e: Event)
    requires Enabled(s, e)
  {
    Stamped(s, e).Some? ==>
      var (id, row) := Stamped(s, e).value;
      forall k, read :: k in s.calls && Some(k) != Writer(e) && Holds(s.calls[k], id, read) ==> !Mistaken(read, row)
  }

  /** The frame has never carried this stamp before. */
  predicate Fresh(s: State, e: Event)
    requires Enabled(s, e)
  {
    Stamped(s, e).Some? ==> var (_, row) := Stamped(s, e).value; (row.fid, row.lastSeen) !in s.used
  }

  /** No other call holds a version of the frame that carries the event's stamp. */
  ghost predicate Unheld(s: State, e: Event)
    requires Enabled(s, e)
  {
    Stamped(s, e).Some? ==>
      var (id, row) := Stamped(s, e).value;
      forall k, read :: k in s.calls && Some(k) != Writer(e) && Holds(s.calls[k], id, read) ==>
        read.fid != row.fid || read.lastSeen != row.lastSeen
  }

  ghost predicate AllSafe(evs: seq<Event>) {
    evs == [] ||
    var s, e := Exec(evs[..|evs| - 1]), evs[|evs| - 1];
    AllSafe(evs[..|evs| - 1]) && (Enabled(s, e) ==> Safe(s, e))
  }

  predicate AllFresh(evs: seq<Event>) {
    evs == [] ||
    var s, e := Exec(evs[..|evs| - 1]), evs[|evs| - 1];
    AllFresh(evs[..|evs| - 1]) && (Enabled(s, e) ==> Fresh(s, e))
  }

  /** Every write carries a new stamp, or one that no other handler relies on at that moment. */
  ghost predicate AllGuarded(evs: seq<Event>) {
    evs == [] ||
    var s, e := Exec(evs[..|evs| - 1]), evs[|evs| - 1];
    AllGuarded(evs[..|evs| - 1]) && (Enabled(s, e) ==> Fresh(s, e) || Unheld(s, e))
  }

  // ---------------------------------------------------------------------------------------------
  // Which agents the table shows
  // ---------------------------------------------------------------------------------------------

  /** The process has a frame of its own, or a proxy reference on some frame of its pane. */
  predicate Represented(rows: Table, id: Ident) {
    id in rows || ProxiedElsewhere(rows, id)
  }

  predicate ProxiedElsewhere(rows: Table, id: Ident) {
    exists t :: t in rows && t != id && t.pane == id.pane && id.proc in ProxyProcs(rows[t].refs)
  }

  /** A session-start reset could read the start time of every live proxy that it looked at. */
  predicate Readable(s: State, e: Event)
    requires Enabled(s, e)
  {
    e.Compute? && s.calls[e.k].m.ResetSession? ==>
      forall p :: p in ProxyProcs(s.calls[e.k].snap.refs) && p !in s.dead ==> p.pid !in e.unread
  }

  predicate AllReadable(evs: seq<Event>) {
    evs == [] ||
    var s, e := Exec(evs[..|evs| - 1]), evs[|evs| - 1];
    AllReadable(evs[..|evs| - 1]) && (Enabled(s, e) ==> Readable(s, e))
  }
}
