/**
 * The frames table as a store object, and the handlers' retry loop over it.
 *
 * The loop is checked against arbitrary interference: before each of its database statements any
 * other writer may carry out any writes.
 */
module FramesStore {
  import opened Basics
  import opened Subagents
  import opened FrameRuns

  /** Writes by other handlers, one after another; a write that cannot be carried out has no effect. */
  function Run(rows: Table, ws: seq<Write>): Table {
    if ws == [] then rows
    else
      var before := Run(rows, ws[..|ws| - 1]);
      if Applies(before, ws[|ws| - 1]) then Perform(before, ws[|ws| - 1]) else before
  }

  lemma {:induction false} RunConcat(rows: Table, a: seq<Write>, b: seq<Write>)
    ensures Run(rows, a + b) == Run(Run(rows, a), b)
  {
    if b == [] {
      assert a + b == a;
    } else {
      assert (a + b)[..|a + b| - 1] == a + b[..|b| - 1];
      RunConcat(rows, a, b[..|b| - 1]);
    }
  }

  /** The stamp a write leaves on the row of `id`, if it touches that row. */
  function StampOn(w: Write, id: Ident): Option<int> {
    match w
    case Insert(i, row) => if i == id then Some(row.lastSeen) else None
    case Mutate(i, _, stamp, _) => if i == id then Some(stamp) else None
    case HookPath(i, _, _, _, stamp) => if i == id then Some(stamp) else None
    case StatusOnly(i, _, stamp) => if i == id then Some(stamp) else None
    case Remove(_) => None
  }

  /** None of the writes puts a stamp on the row of `id` that is in `seen`, or that one of them already put there. */
  predicate FreshStamps(ws: seq<Write>, id: Ident, seen: set<int>) {
    ws == [] ||
    var s := StampOn(ws[0], id);
    (s.Some? ==> s.value !in seen) && FreshStamps(ws[1..], id, if s.Some? then seen + {s.value} else seen)
  }

  function StampsOn(ws: seq<Write>, id: Ident): set<int> {
    set w | w in ws && StampOn(w, id).Some? :: StampOn(w, id).value
  }

  lemma {:induction false} FreshSplit(a: seq<Write>, b: seq<Write>, id: Ident, seen: set<int>)
    requires FreshStamps(a + b, id, seen)
    ensures FreshStamps(a, id, seen) && FreshStamps(b, id, seen + StampsOn(a, id))
  {
    if a == [] {
      assert a + b == b && seen + StampsOn(a, id) == seen;
    } else {
      var s := StampOn(a[0], id);
      var seen1 := if s.Some? then seen + {s.value} else seen;
      assert (a + b)[1..] == a[1..] + b;
      FreshSplit(a[1..], b, id, seen1);
      assert a == [a[0]] + a[1..];
      assert seen1 + StampsOn(a[1..], id) == seen + StampsOn(a, id);
    }
  }

  /** If the compare-and-swap test would pass, the row is the one that was read. */
  ghost predicate Truthful(rows: Table, id: Ident, read: Row) {
    Unchanged(rows, id, read) ==> rows[id] == read
  }

  lemma StaysTruthful1(rows: Table, w: Write, id: Ident, read: Row, seen: set<int>)
    requires Truthful(rows, id, read) && Applies(rows, w) && read.lastSeen in seen
    requires StampOn(w, id).Some? ==> StampOn(w, id).value !in seen
    ensures Truthful(Perform(rows, w), id, read)
    ensures id in Perform(rows, w) ==>
              if StampOn(w, id).Some? then Perform(rows, w)[id].lastSeen == StampOn(w, id).value
              else id in rows && Perform(rows, w)[id] == rows[id]
  {
  }

  /** What a handler relies on between its statements: it is not fooled, and the row's stamp is known. */
  ghost predicate Relies(rows: Table, id: Ident, read: Row, seen: set<int>) {
    Truthful(rows, id, read) && read.lastSeen in seen && (id in rows ==> rows[id].lastSeen in seen)
  }

  lemma {:induction false} StaysTruthful(rows: Table, ws: seq<Write>, id: Ident, read: Row, seen: set<int>)
    requires Relies(rows, id, read, seen) && FreshStamps(ws, id, seen)
    ensures Relies(Run(rows, ws), id, read, seen + StampsOn(ws, id))
  {
    if ws != [] {
      var front, w := ws[..|ws| - 1], ws[|ws| - 1];
      assert ws == front + [w];
      FreshSplit(front, [w], id, seen);
      StaysTruthful(rows, front, id, read, seen);
      assert StampsOn(ws, id) == StampsOn(front, id) + StampsOn([w], id);
      var before := Run(rows, front);
      if Applies(before, w) {
        StaysTruthful1(before, w, id, read, seen + StampsOn(front, id));
        assert StampOn(w, id).Some? ==> StampOn(w, id).value in StampsOn([w], id);
      }
    }
  }

  /** The stamps that the handler's copy and the row itself carry. */
  function Seen(rows: Table, id: Ident, read: Row): set<int> {
    {read.lastSeen} + if id in rows then {rows[id].lastSeen} else {}
  }

  class FramesStore {
    var rows: Table

    constructor ()
      ensures rows == map[]
    {
      rows := map[];
    }

    /** A row is found by pane, pid and start time. */
    method GetByIdentity(id: Ident) returns (row: Option<Row>)
      ensures row == if id in rows then Some(rows[id]) else None
    {
      row := if id in rows then Some(rows[id]) else None;
    }

    /** Whole-row update guarded by last_seen_at; the frame id never changes. */
    method UpsertIfUnchanged(id: Ident, frame: Row, expectedLastSeen: int) returns (ok: bool)
      modifies this
      ensures ok <==> id in old(rows) && old(rows)[id].fid == frame.fid && old(rows)[id].lastSeen == expectedLastSeen
      ensures rows == if ok then old(rows)[id := frame] else old(rows)
    {
      ok := id in rows && rows[id].fid == frame.fid && rows[id].lastSeen == expectedLastSeen;
      if ok { rows := rows[id := frame]; }
    }

    method DeleteIfUnchanged(id: Ident, fid: nat, lastSeen: int) returns (ok: bool)
      modifies this
      ensures ok <==> id in old(rows) && old(rows)[id].fid == fid && old(rows)[id].lastSeen == lastSeen
      ensures rows == if ok then old(rows) - {id} else old(rows)
    {
      ok := id in rows && rows[id].fid == fid && rows[id].lastSeen == lastSeen;
      if ok { rows := rows - {id}; }
    }

    /** Whatever the other writers do between two statements of one handler. */
    method Interfere(ws: seq<Write>)
      modifies this
      ensures rows == Run(old(rows), ws)
    {
      for i := 0 to |ws|
        invariant rows == Run(old(rows), ws[..i])
      {
        assert ws[..i + 1][..i] == ws[..i];
        if Applies(rows, ws[i]) { rows := Perform(rows, ws[i]); }
      }
      assert ws[..|ws|] == ws;
    }
  }

  /** What happens around one attempt: writes before the update, process readings, writes before the reload. */
  datatype Around = Around(before: seq<Write>, dead: set<Proc>, unread: set<int>, after: seq<Write>)

  function AllWrites(env: seq<Around>): seq<Write> {
    if env == [] then [] else env[0].before + env[0].after + AllWrites(env[1..])
  }

  /** Everything the retry loop knows after the interference `done`, with `rest` still to come. */
  ghost predicate Knows(rows0: Table, done: seq<Write>, rows: Table, rest: seq<Write>, id: Ident, read: Row, seen: set<int>) {
    rows == Run(rows0, done) && Relies(rows, id, read, seen) && FreshStamps(rest, id, seen)
  }

  lemma KnowsNext(rows0: Table, done: seq<Write>, rows: Table, ws: seq<Write>, rest: seq<Write>, id: Ident, read: Row,
                  seen: set<int>)
    requires Knows(rows0, done, rows, ws + rest, id, read, seen)
    ensures Knows(rows0, done + ws, Run(rows, ws), rest, id, read, seen + StampsOn(ws, id))
  {
    FreshSplit(ws, rest, id, seen);
    StaysTruthful(rows, ws, id, read, seen);
    RunConcat(rows0, done, ws);
  }

  /** The change was committed whole, to the row as the interference `done` had left it. */
  ghost predicate CommittedAfter(rows0: Table, done: seq<Write>, rows: Table, id: Ident, m: Mutation, stamp: int) {
    exists live :: Applies(Run(rows0, done), Mutate(id, m, stamp, live))
                   && rows == Perform(Run(rows0, done), Mutate(id, m, stamp, live))
  }

  /** One attempt: compute from the copy, let the others run, then compare and swap. */
  method Attempt(store: FramesStore, id: Ident, current: Row, m: Mutation, stamp: int, a: Around,
                 ghost rows0: Table, ghost done: seq<Write>, ghost rest: seq<Write>, ghost seen: set<int>)
    returns (next: Option<Row>, ok: bool)
    requires Knows(rows0, done, store.rows, a.before + rest, id, current, seen)
    modifies store
    ensures next == ApplyRow(m, stamp, Verified(current.refs, a.dead, a.unread), current)
    ensures next.None? ==> !ok && store.rows == old(store.rows)
    ensures next.Some? ==> (ok <==> Unchanged(Run(old(store.rows), a.before), id, current))
    ensures next.Some? && !ok ==>
              Knows(rows0, done + a.before, store.rows, rest, id, current, seen + StampsOn(a.before, id))
    ensures ok ==> CommittedAfter(rows0, done + a.before, store.rows, id, m, stamp)
    ensures ok ==> next.Some? && id in store.rows && store.rows[id] == next.value
  {
    var live := Verified(current.refs, a.dead, a.unread);
    next, ok := ApplyRow(m, stamp, live, current), false;
    if next.Some? {
      KnowsNext(rows0, done, store.rows, a.before, rest, id, current, seen);
      store.Interfere(a.before);
      ok := store.UpsertIfUnchanged(id, next.value, current.lastSeen);
      if ok {
        assert Applies(Run(rows0, done + a.before), Mutate(id, m, stamp, live));
      }
    }
  }

  datatype Round = Ended(outcome: Outcome, stored: Option<Row>) | Again(reloaded: Row)

  /** One round of the loop: an attempt and, if it was beaten to it, a fresh read. */
  method OneRound(store: FramesStore, id: Ident, current: Row, m: Mutation, stamp: int, a: Around,
                  ghost rows0: Table, ghost done0: seq<Write>, ghost rest: seq<Write>, ghost seen0: set<int>)
    returns (r: Round, ghost done: seq<Write>, ghost seen: set<int>)
    requires Knows(rows0, done0, store.rows, a.before + (a.after + rest), id, current, seen0)
    modifies store
    ensures done == done0 || done == done0 + a.before || done == done0 + a.before + a.after
    ensures r.Ended? ==> r.outcome != Exhausted
    ensures r.Ended? && r.outcome == NothingToDo ==>
              done == done0 && ApplyRow(m, stamp, Verified(current.refs, a.dead, a.unread), current).None?
    ensures r.Again? ==> !Unchanged(Run(old(store.rows), a.before), id, current)
    ensures r.Again? ==> store.rows == Run(rows0, done) && id in store.rows && r.reloaded == store.rows[id]
    ensures r.Ended? && r.outcome == Committed ==>
              CommittedAfter(rows0, done, store.rows, id, m, stamp) && id in store.rows && r.stored == Some(store.rows[id])
    ensures r.Ended? && r.outcome != Committed ==> r.stored == None && store.rows == Run(rows0, done)
    ensures r.Ended? && r.outcome == RowGone ==> id !in store.rows
    ensures r.Again? ==> done == done0 + a.before + a.after && Knows(rows0, done, store.rows, rest, id, r.reloaded, seen)
  {
    done, seen := done0, seen0;
    var next, ok := Attempt(store, id, current, m, stamp, a, rows0, done, a.after + rest, seen);
    if next.None? { return Ended(NothingToDo, None), done, seen; }
    done, seen := done + a.before, seen + StampsOn(a.before, id);
    if ok { return Ended(Committed, next), done, seen; }
    KnowsNext(rows0, done, store.rows, a.after, rest, id, current, seen);
    store.Interfere(a.after);
    done, seen := done + a.after, seen + StampsOn(a.after, id);
    var reloaded := store.GetByIdentity(id);
    if reloaded.None? { return Ended(RowGone, None), done, seen; }
    r := Again(reloaded.value);
  }

  lemma WritesFrom(env: seq<Around>, i: nat, done: seq<Write>)
    requires i < |env| && AllWrites(env) == done + AllWrites(env[i..])
    ensures AllWrites(env[i..]) == env[i].before + (env[i].after + AllWrites(env[i + 1..]))
    ensures AllWrites(env) == done + env[i].before + env[i].after + AllWrites(env[i + 1..])
    ensures done <= AllWrites(env) && done + env[i].before <= AllWrites(env)
    ensures done + env[i].before + env[i].after <= AllWrites(env)
  {
    assert env[i..][1..] == env[i + 1..];
    Regroup(done, env[i].before, env[i].after, AllWrites(env[i + 1..]));
    Regroup(env[i].before, env[i].after, AllWrites(env[i + 1..]), []);
  }

  lemma KnowsFirst(rows: Table, env: seq<Around>, id: Ident, first: Row)
    requires Truthful(rows, id, first) && FreshStamps(AllWrites(env), id, Seen(rows, id, first))
    ensures AllWrites(env) == [] + AllWrites(env[0..])
    ensures Knows(rows, [], rows, AllWrites(env[0..]), id, first, Seen(rows, id, first))
  {
    assert env[0..] == env;
  }

  lemma KnowsLast(rows0: Table, done: seq<Write>, rows: Table, env: seq<Around>, id: Ident, read: Row, seen: set<int>)
    requires AllWrites(env) == done + AllWrites(env[|env|..])
    requires Knows(rows0, done, rows, AllWrites(env[|env|..]), id, read, seen)
    ensures done == AllWrites(env) && rows == Run(rows0, done)
  {
    assert AllWrites(env[|env|..]) == [];
  }

  /** The row version that attempt `n` starts from: the one given, or the one read after attempt `n - 1`. */
  ghost function Held(rows0: Table, env: seq<Around>, id: Ident, first: Row, n: nat): Option<Row>
    requires n <= |env|
  {
    if n == 0 then Some(first)
    else
      var rows := Run(rows0, AllWrites(env[..n]));
      if id in rows then Some(rows[id]) else None
  }

  /** Somebody wrote or deleted the row between the read of attempt `n` and its compare-and-swap. */
  ghost predicate Beaten(rows0: Table, env: seq<Around>, id: Ident, first: Row, n: nat)
    requires n < |env|
  {
    var held := Held(rows0, env, id, first, n);
    held.Some? && !Unchanged(Run(rows0, AllWrites(env[..n]) + env[n].before), id, held.value)
  }

  /** Attempt `n` started from a version in which there was nothing to change. */
  ghost predicate Idle(rows0: Table, env: seq<Around>, id: Ident, first: Row, m: Mutation, stamp: int, n: nat)
    requires n < |env|
  {
    var held := Held(rows0, env, id, first, n);
    held.Some? && ApplyRow(m, stamp, Verified(held.value.refs, env[n].dead, env[n].unread), held.value).None?
  }

  lemma {:induction false} AllWritesNext(env: seq<Around>, n: nat)
    requires n < |env|
    ensures AllWrites(env[..n + 1]) == AllWrites(env[..n]) + env[n].before + env[n].after
  {
    if n == 0 {
      assert env[..0] == [] && env[..1] == [env[0]] && env[..1][1..] == [];
    } else {
      AllWritesNext(env[1..], n - 1);
      assert env[..n + 1][1..] == env[1..][..n] && env[..n][1..] == env[1..][..n - 1];
      Regroup(env[0].before + env[0].after, AllWrites(env[1..][..n - 1]), env[n].before, env[n].after);
    }
  }

  lemma HeldFirst(rows: Table, env: seq<Around>, id: Ident, first: Row)
    ensures Held(rows, env, id, first, 0) == Some(first) && AllWrites(env[..0]) == [] && Run(rows, []) == rows
  {
  }

  lemma FoundIdle(rows0: Table, env: seq<Around>, id: Ident, first: Row, m: Mutation, stamp: int, n: nat, current: Row)
    requires n < |env| && Held(rows0, env, id, first, n) == Some(current)
    requires ApplyRow(m, stamp, Verified(current.refs, env[n].dead, env[n].unread), current).None?
    ensures Idle(rows0, env, id, first, m, stamp, n)
  {
  }

  /** A round that was beaten, and what the next one starts from. */
  lemma RoundBeaten(rows0: Table, env: seq<Around>, id: Ident, first: Row, n: nat, rows: Table, current: Row, rows': Table)
    requires n < |env| && rows == Run(rows0, AllWrites(env[..n])) && Held(rows0, env, id, first, n) == Some(current)
    requires !Unchanged(Run(rows, env[n].before), id, current)
    requires rows' == Run(rows0, AllWrites(env[..n]) + env[n].before + env[n].after) && id in rows'
    ensures Beaten(rows0, env, id, first, n) && Held(rows0, env, id, first, n + 1) == Some(rows'[id])
    ensures rows' == Run(rows0, AllWrites(env[..n + 1]))
  {
    RunConcat(rows0, AllWrites(env[..n]), env[n].before);
    AllWritesNext(env, n);
  }

  /**
   * One handler's retry loop.  Under any interference with fresh stamps it either commits its change
   * whole, at one moment, to the row as it then is, or leaves nothing behind; `done` is the
   * interference that had happened by then.  It gives up only where an attempt found nothing to change, the
   * row is gone, or all three attempts were beaten to the row.
   */
  method MutateWithRetry(store: FramesStore, id: Ident, first: Row, m: Mutation, stamp: int, env: seq<Around>)
    returns (outcome: Outcome, stored: Option<Row>, ghost done: seq<Write>)
    requires |env| == MAX_ATTEMPTS
    requires Truthful(store.rows, id, first) && FreshStamps(AllWrites(env), id, Seen(store.rows, id, first))
    modifies store
    ensures done <= AllWrites(env)
    ensures outcome == Committed ==> CommittedAfter(old(store.rows), done, store.rows, id, m, stamp)
    ensures outcome == Committed ==> id in store.rows && stored == Some(store.rows[id])
    ensures outcome != Committed ==> stored == None && store.rows == Run(old(store.rows), done)
    ensures outcome == RowGone ==> id !in store.rows
    ensures outcome == Exhausted ==> done == AllWrites(env) && forall n :: 0 <= n < 3 ==> Beaten(old(store.rows), env, id, first, n)
    ensures outcome == NothingToDo ==>
              exists n: nat :: n < 3 && done == AllWrites(env[..n]) && Idle(old(store.rows), env, id, first, m, stamp, n)
  {
    hide Knows, FreshStamps, Run, AllWrites, CommittedAfter, Held, Beaten, Idle, ApplyRow, Unchanged;
    var current := first;
    var attempt := 0;
    done := [];
    ghost var rows0 := store.rows;
    ghost var seen := Seen(store.rows, id, first);
    KnowsFirst(rows0, env, id, first);
    HeldFirst(rows0, env, id, first);
    while attempt < MAX_ATTEMPTS
      invariant 0 <= attempt <= MAX_ATTEMPTS
      invariant AllWrites(env) == done + AllWrites(env[attempt..])
      invariant Knows(rows0, done, store.rows, AllWrites(env[attempt..]), id, current, seen)
      invariant done == AllWrites(env[..attempt]) && store.rows == Run(rows0, done)
      invariant Held(rows0, env, id, first, attempt) == Some(current)
      invariant forall n :: 0 <= n < attempt ==> Beaten(rows0, env, id, first, n)
    {
      WritesFrom(env, attempt, done);
      ghost var was := store.rows;
      var round;
      round, done, seen :=
        OneRound(store, id, current, m, stamp, env[attempt], rows0, done, AllWrites(env[attempt + 1..]), seen);
      if round.Ended? {
        if round.outcome == NothingToDo { FoundIdle(rows0, env, id, first, m, stamp, attempt, current); }
        return round.outcome, round.stored, done;
      }
      RoundBeaten(rows0, env, id, first, attempt, was, current, store.rows);
      AllWritesNext(env, attempt);
      current := round.reloaded;
      attempt := attempt + 1;
    }
    KnowsLast(rows0, done, store.rows, env, id, current, seen);
    return Exhausted, None, done;
  }
}
