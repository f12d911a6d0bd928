/**
 * The subagent list of one agent frame, and every change a hook handler can make to it.
 *
 * A frame row carries a list of subagent references.  A native reference is named by an id that the
 * agent supplied; a proxy reference stands for another agent's process and is named by that process
 * (pid and start time).  Handlers compute the next list from the list they read, and write it back
 * with a compare-and-swap (module FrameRuns).
 */
module Subagents {
  import opened Basics

  const MAX_DELEGATING_TOOL_USE_IDS: nat := 32

  /** A process identity: the start time tells a reused pid apart. */
  datatype Proc = Proc(pid: int, start: string)

  datatype Ref = Ref(id: string, typ: string, startedAt: int, proc: Proc, proxy: bool, turn: string,
                     delegating: bool, toolUses: seq<string>)

  const NO_PROC := Proc(0, "")

  function NativeRef(id: string, typ: string, ts: int): Ref {
    Ref(id, typ, ts, NO_PROC, false, "", false, [])
  }

  /** A proxy's display id plays no part in any lookup, so it is left empty here. */
  function ProxyRef(typ: string, p: Proc, turn: string, ts: int): Ref {
    Ref("", typ, ts, p, true, turn, false, [])
  }

  datatype Lifecycle = Start | Stop

  /** Do two references name the same subagent?  An empty turn on either proxy side matches any turn. */
  predicate RefMatches(a: Ref, b: Ref) {
    if a.proxy != b.proxy then false
    else if a.proxy then a.proc == b.proc && (a.turn == "" || b.turn == "" || a.turn == b.turn)
    else a.id == b.id
  }

  /** First write wins on a start; a stop drops every match. */
  function UpdateSubagents(current: seq<Ref>, lifecycle: Lifecycle, ref: Ref): seq<Ref> {
    match lifecycle
    case Start => if exists e :: e in current && RefMatches(e, ref) then current else current + [ref]
    case Stop => Filter(current, (e: Ref) => !RefMatches(e, ref))
  }

  /** The three ways handlers look a reference up. */
  datatype Key = Native(id: string) | Broker(proc: Proc) | Turn(proc: Proc, turn: string)

  predicate Hit(k: Key, r: Ref) {
    match k
    case Native(id) => !r.proxy && r.id == id
    case Broker(p) => r.proxy && r.proc == p
    case Turn(p, turn) => r.proxy && r.proc == p && r.turn == turn
  }

  /** Index of the first reference that `k` hits. */
  function Find(refs: seq<Ref>, k: Key): (i: Option<nat>)
    ensures i.None? <==> forall r :: r in refs ==> !Hit(k, r)
    ensures i.Some? ==> i.value < |refs| && Hit(k, refs[i.value]) && forall j :: 0 <= j < i.value ==> !Hit(k, refs[j])
  {
    if refs == [] then None
    else if Hit(k, refs[0]) then Some(0)
    else
      var rest := Find(refs[1..], k);
      if rest.None? then None else Some(rest.value + 1)
  }

  /** A native reference as the session-start reset remembers it. */
  datatype NativeKey = NativeKey(typ: string, id: string, startedAt: int)

  function KeyOf(r: Ref): NativeKey { NativeKey(r.typ, r.id, r.startedAt) }

  function NativeKeys(refs: seq<Ref>): set<NativeKey> {
    set r | r in refs && !r.proxy :: KeyOf(r)
  }

  /** What a session-start reset keeps: verified-live proxies and natives that were not there at entry. */
  predicate SurvivesReset(baseline: set<NativeKey>, live: set<Proc>, r: Ref) {
    if r.proxy then r.proc in live else KeyOf(r) !in baseline
  }

  /** Every list change a handler can ask for. */
  datatype Mutation =
    | NativeStart(id: string, typ: string, ts: int)
    | NativeStop(id: string)
    | FailNative(id: string, status: string)
    | AttachProxy(typ: string, proc: Proc, ts: int)
    | UpsertBroker(proc: Proc, turn: string, ts: int)
    | DetachProxy(proc: Proc)
    | DetachTurn(proc: Proc, turn: string)
    | Mark(id: string, tool: string)
    | Unmark(id: string, tool: string)
    | ResetSession(baseline: set<NativeKey>, agentType: string, ppid: int, status: string)

  function RemoveAt(refs: seq<Ref>, i: nat): seq<Ref>
    requires i < |refs|
  {
    refs[..i] + refs[i + 1..]
  }

  /** Tool-use ids after one more is recorded: no repeats, oldest evicted first. */
  function Recorded(ids: seq<string>, tool: string): seq<string> {
    var all := if tool in ids then ids else ids + [tool];
    if |all| > MAX_DELEGATING_TOOL_USE_IDS then all[|all| - MAX_DELEGATING_TOOL_USE_IDS..] else all
  }

  /**
   * The list a handler would write, given the list it read; None when it finds nothing to change and
   * returns without writing.  `live` holds the processes that a session-start reset verified.
   */
  function Apply(m: Mutation, live: set<Proc>, refs: seq<Ref>): Option<seq<Ref>> {
    match m
    case NativeStart(id, typ, ts) => Some(UpdateSubagents(refs, Start, NativeRef(id, typ, ts)))
    case NativeStop(id) => Some(UpdateSubagents(refs, Stop, NativeRef(id, "", 0)))
    case FailNative(id, _) =>
      if id == "" || Find(refs, Native(id)).None? then None
      else Some(UpdateSubagents(refs, Stop, NativeRef(id, "", 0)))
    case AttachProxy(typ, p, ts) => Some(UpdateSubagents(refs, Start, ProxyRef(typ, p, "", ts)))
    case UpsertBroker(p, turn, ts) =>
      var hit := Find(refs, Broker(p));
      if hit.Some? then Some(refs[hit.value := refs[hit.value].(turn := turn, startedAt := ts)])
      else Some(refs + [ProxyRef("codex", p, turn, ts)])
    case DetachProxy(p) =>
      var hit := Find(refs, Broker(p));
      if hit.Some? then Some(RemoveAt(refs, hit.value)) else None
    case DetachTurn(p, turn) =>
      var hit := Find(refs, Turn(p, turn));
      if hit.Some? then Some(RemoveAt(refs, hit.value)) else None
    case Mark(id, tool) =>
      var hit := Find(refs, Native(id));
      if hit.None? then None
      else
        var ids := Recorded(refs[hit.value].toolUses, tool);
        Some(refs[hit.value := refs[hit.value].(toolUses := ids, delegating := |ids| > 0)])
    case Unmark(id, tool) =>
      var hit := Find(refs, Native(id));
      if hit.None? then None
      else
        var ids := Filter(refs[hit.value].toolUses, (t: string) => t != tool);
        Some(refs[hit.value := refs[hit.value].(toolUses := ids, delegating := |ids| > 0)])
    case ResetSession(baseline, _, _, _) => Some(Filter(refs, (r: Ref) => SurvivesReset(baseline, live, r)))
  }

  // ---------------------------------------------------------------------------------------------
  // The list invariant
  // ---------------------------------------------------------------------------------------------

  /** Two references that must never be on one list together. */
  predicate Clash(a: Ref, b: Ref) {
    a.proxy == b.proxy && if a.proxy then a.proc == b.proc else a.id == b.id
  }

  ghost predicate Distinct<T(!new)>(s: seq<T>) {
    forall i, j :: 0 <= i < j < |s| ==> s[i] != s[j]
  }

  ghost predicate NoClash(refs: seq<Ref>) {
    forall i, j :: 0 <= i < j < |refs| ==> !Clash(refs[i], refs[j])
  }

  ghost predicate GoodRef(r: Ref) {
    && (r.delegating <==> r.toolUses != [])
    && Distinct(r.toolUses)
    && |r.toolUses| <= MAX_DELEGATING_TOOL_USE_IDS
    && (r.proxy ==> r.toolUses == [])
  }

  ghost predicate WellFormed(refs: seq<Ref>) {
    NoClash(refs) && forall r :: r in refs ==> GoodRef(r)
  }

  lemma Apart(refs: seq<Ref>, i: nat, j: nat)
    requires NoClash(refs) && i < |refs| && j < |refs| && i != j
    ensures !Clash(refs[i], refs[j])
  {
    if i < j { assert !Clash(refs[i], refs[j]); } else { assert !Clash(refs[j], refs[i]); }
  }

  lemma {:induction false} FilterNoClash(refs: seq<Ref>, keep: Ref -> bool)
    requires NoClash(refs)
    ensures NoClash(Filter(refs, keep))
  {
    if refs != [] {
      FilterNoClash(refs[1..], keep);
      var rest := Filter(refs[1..], keep);
      forall r | r in rest ensures !Clash(refs[0], r) {
        var j :| 0 <= j < |refs[1..]| && refs[1..][j] == r;
        assert refs[j + 1] == r;
      }
    }
  }

  lemma {:induction false} FilterDistinct<T(!new)>(s: seq<T>, keep: T -> bool)
    requires Distinct(s)
    ensures Distinct(Filter(s, keep))
  {
    if s != [] {
      FilterDistinct(s[1..], keep);
      var rest := Filter(s[1..], keep);
      forall x | x in rest ensures x != s[0] {
        var j :| 0 <= j < |s[1..]| && s[1..][j] == x;
        assert s[j + 1] == x;
      }
    }
  }

  /**
   * Recording a tool use keeps the ids distinct and bounded, always ends up holding the new id, and
   * drops only the oldest: what is left is a tail of the old ids followed by the new one.
   */
  lemma RecordedKeepsNewest(ids: seq<string>, tool: string)
    requires Distinct(ids) && |ids| <= MAX_DELEGATING_TOOL_USE_IDS
    ensures var r := Recorded(ids, tool);
            && Distinct(r) && 0 < |r| <= MAX_DELEGATING_TOOL_USE_IDS && tool in r
            && (tool in ids ==> r == ids)
            && (tool !in ids && |ids| < MAX_DELEGATING_TOOL_USE_IDS ==> r == ids + [tool])
            && (tool !in ids && |ids| == MAX_DELEGATING_TOOL_USE_IDS ==> r == ids[1..] + [tool])
  {
    if tool !in ids {
      var all := ids + [tool];
      assert all[|ids|] == tool;
      var r := Recorded(ids, tool);
      assert r[|r| - 1] == tool;
      if |ids| == MAX_DELEGATING_TOOL_USE_IDS {
        assert all[1..] == ids[1..] + [tool];
      }
    }
  }

  lemma UpdatedInPlace(refs: seq<Ref>, i: nat, r: Ref)
    requires WellFormed(refs) && i < |refs| && GoodRef(r)
    requires r.proxy == refs[i].proxy && r.proc == refs[i].proc && r.id == refs[i].id
    ensures WellFormed(refs[i := r])
  {
    var next := refs[i := r];
    forall x | x in next ensures GoodRef(x) {
      if x != r { assert x in refs; }
    }
  }

  lemma Appended(refs: seq<Ref>, r: Ref)
    requires WellFormed(refs) && GoodRef(r) && forall e :: e in refs ==> !Clash(e, r)
    ensures WellFormed(refs + [r])
  {
  }

  lemma Removed(refs: seq<Ref>, i: nat)
    requires WellFormed(refs) && i < |refs|
    ensures WellFormed(RemoveAt(refs, i))
  {
    RemoveAtMembers(refs, i);
    var out := RemoveAt(refs, i);
    forall j, k | 0 <= j < k < |out| ensures !Clash(out[j], out[k]) {
      assert out[j] == refs[if j < i then j else j + 1];
      assert out[k] == refs[if k < i then k else k + 1];
    }
  }

  /** Every list change keeps the list well formed. */
  lemma ApplyKeepsWellFormed(m: Mutation, live: set<Proc>, refs: seq<Ref>)
    requires WellFormed(refs)
    ensures Apply(m, live, refs).Some? ==> WellFormed(Apply(m, live, refs).value)
  {
    match m
    case NativeStop(id) =>
      FilterNoClash(refs, (e: Ref) => !RefMatches(e, NativeRef(id, "", 0)));
    case FailNative(id, _) =>
      FilterNoClash(refs, (e: Ref) => !RefMatches(e, NativeRef(id, "", 0)));
    case ResetSession(baseline, _, _, _) =>
      FilterNoClash(refs, (r: Ref) => SurvivesReset(baseline, live, r));
    case Mark(id, tool) =>
      var hit := Find(refs, Native(id));
      if hit.Some? {
        var was := refs[hit.value];
        assert GoodRef(was);
        RecordedKeepsNewest(was.toolUses, tool);
        var ids := Recorded(was.toolUses, tool);
        UpdatedInPlace(refs, hit.value, was.(toolUses := ids, delegating := |ids| > 0));
      }
    case Unmark(id, tool) =>
      var hit := Find(refs, Native(id));
      if hit.Some? {
        var was := refs[hit.value];
        assert GoodRef(was);
        FilterDistinct(was.toolUses, (t: string) => t != tool);
        var ids := Filter(was.toolUses, (t: string) => t != tool);
        UpdatedInPlace(refs, hit.value, was.(toolUses := ids, delegating := |ids| > 0));
      }
    case UpsertBroker(p, turn, ts) =>
      var hit := Find(refs, Broker(p));
      if hit.Some? {
        UpdatedInPlace(refs, hit.value, refs[hit.value].(turn := turn, startedAt := ts));
      } else {
        Appended(refs, ProxyRef("codex", p, turn, ts));
      }
    case NativeStart(id, typ, ts) =>
      var n := NativeRef(id, typ, ts);
      if !(exists e :: e in refs && RefMatches(e, n)) { Appended(refs, n); }
    case AttachProxy(typ, p, ts) =>
      var n := ProxyRef(typ, p, "", ts);
      if !(exists e :: e in refs && RefMatches(e, n)) { Appended(refs, n); }
    case DetachProxy(p) =>
      var hit := Find(refs, Broker(p));
      if hit.Some? { Removed(refs, hit.value); }
    case DetachTurn(p, turn) =>
      var hit := Find(refs, Turn(p, turn));
      if hit.Some? { Removed(refs, hit.value); }
  }

  /** The match relation is not transitive, yet the list invariant above holds. */
  lemma MatchIsNotTransitive()
    ensures exists a, b, c :: RefMatches(a, b) && RefMatches(b, c) && !RefMatches(a, c)
  {
    var p := Proc(7, "t");
    var a, b, c := ProxyRef("codex", p, "x", 0), ProxyRef("codex", p, "", 0), ProxyRef("codex", p, "y", 0);
    assert RefMatches(a, b) && RefMatches(b, c);
    assert a.turn[0] != c.turn[0];
    assert !RefMatches(a, c);
  }

  /**
   * Why the broker upsert does not go through the turn-aware match: a start that carried a turn would
   * append a second reference for a process exactly when the one on the list is in another turn.
   */
  lemma TurnCarryingStartDuplicates(refs: seq<Ref>, p: Proc, turn: string, ts: int)
    requires WellFormed(refs) && turn != ""
    ensures !WellFormed(UpdateSubagents(refs, Start, ProxyRef("codex", p, turn, ts)))
       <==> exists r :: r in refs && Hit(Broker(p), r) && r.turn != "" && r.turn != turn
  {
    var n := ProxyRef("codex", p, turn, ts);
    var next := UpdateSubagents(refs, Start, n);
    if r :| r in refs && Hit(Broker(p), r) && r.turn != "" && r.turn != turn {
      var i :| 0 <= i < |refs| && refs[i] == r;
      forall e | e in refs ensures !RefMatches(e, n) {
        var j :| 0 <= j < |refs| && refs[j] == e;
        if j != i { Apart(refs, i, j); }
      }
      assert next == refs + [n];
      assert Clash(next[i], next[|refs|]);
    } else if !(exists e :: e in refs && RefMatches(e, n)) {
      forall e | e in refs ensures !Clash(e, n) {
        assert !RefMatches(e, n);
        assert !(Hit(Broker(p), e) && e.turn != "" && e.turn != turn);
      }
      Appended(refs, n);
    }
  }

  // ---------------------------------------------------------------------------------------------
  // What each change does
  // ---------------------------------------------------------------------------------------------

  function ProxyProcs(refs: seq<Ref>): set<Proc> {
    set r | r in refs && r.proxy :: r.proc
  }

  lemma RemoveAtMembers(refs: seq<Ref>, i: nat)
    requires i < |refs|
    ensures forall r :: r in refs ==> r == refs[i] || r in RemoveAt(refs, i)
    ensures forall r :: r in RemoveAt(refs, i) ==> exists j :: 0 <= j < |refs| && j != i && refs[j] == r
  {
    var out := RemoveAt(refs, i);
    forall r | r in refs && r != refs[i] ensures r in out {
      var j :| 0 <= j < |refs| && refs[j] == r;
      assert out[if j < i then j else j - 1] == r;
    }
    forall r | r in out ensures exists j :: 0 <= j < |refs| && j != i && refs[j] == r {
      var k :| 0 <= k < |out| && out[k] == r;
      assert refs[if k < i then k else k + 1] == r;
    }
  }

  /**
   * Which processes the proxies stand for afterwards.  Only a detach for that process, or a reset
   * that did not verify it, takes a process off the list.
   */
  lemma ProxyProcsAfter(m: Mutation, live: set<Proc>, refs: seq<Ref>)
    requires WellFormed(refs) && Apply(m, live, refs).Some?
    ensures ProxyProcs(Apply(m, live, refs).value) ==
            match m {
              case AttachProxy(_, p, _) => ProxyProcs(refs) + {p}
              case UpsertBroker(p, _, _) => ProxyProcs(refs) + {p}
              case DetachProxy(p) => ProxyProcs(refs) - {p}
              case DetachTurn(p, _) => ProxyProcs(refs) - {p}
              case ResetSession(_, _, _, _) => ProxyProcs(refs) * live
              case _ => ProxyProcs(refs)
            }
  {
    var next := Apply(m, live, refs).value;
    match m
    case DetachProxy(p) =>
      Detached(refs, Find(refs, Broker(p)).value);
    case DetachTurn(p, turn) =>
      Detached(refs, Find(refs, Turn(p, turn)).value);
    case UpsertBroker(p, turn, ts) =>
      var hit := Find(refs, Broker(p));
      if hit.Some? {
        Replaced(refs, hit.value, next[hit.value]);
      }
    case Mark(id, tool) =>
      var i := Find(refs, Native(id)).value;
      Replaced(refs, i, next[i]);
    case Unmark(id, tool) =>
      var i := Find(refs, Native(id)).value;
      Replaced(refs, i, next[i]);
    case AttachProxy(typ, p, ts) =>
      var n := ProxyRef(typ, p, "", ts);
      if !(exists e :: e in refs && RefMatches(e, n)) {
        assert next == refs + [n] && n in next;
      }
    case _ =>
  }

  lemma Replaced(refs: seq<Ref>, i: nat, r: Ref)
    requires i < |refs| && r.proxy == refs[i].proxy && r.proc == refs[i].proc
    ensures ProxyProcs(refs[i := r]) == ProxyProcs(refs)
  {
    var next := refs[i := r];
    assert next[i] == r;
    forall p | p in ProxyProcs(refs) ensures p in ProxyProcs(next) {
      var x :| x in refs && x.proxy && x.proc == p;
      var j :| 0 <= j < |refs| && refs[j] == x;
      assert next[j] in next;
    }
    forall p | p in ProxyProcs(next) ensures p in ProxyProcs(refs) {
      var x :| x in next && x.proxy && x.proc == p;
      if x != r { assert x in refs; } else { assert refs[i] in refs; }
    }
  }

  lemma Detached(refs: seq<Ref>, i: nat)
    requires NoClash(refs) && i < |refs| && refs[i].proxy
    ensures ProxyProcs(RemoveAt(refs, i)) == ProxyProcs(refs) - {refs[i].proc}
  {
    RemoveAtMembers(refs, i);
    forall r | r in RemoveAt(refs, i) && r.proxy ensures r in refs && r.proc != refs[i].proc {
      var j :| 0 <= j < |refs| && j != i && refs[j] == r;
      Apart(refs, j, i);
    }
  }

  /**
   * A turn-aware detach happens if and only if a proxy of that process in exactly that turn is on the
   * list (an empty turn asks for an empty turn); it removes that one reference and nothing else, and
   * afterwards the process has none.
   */
  lemma DetachTurnExact(refs: seq<Ref>, p: Proc, turn: string, live: set<Proc>)
    requires WellFormed(refs)
    ensures var out := Apply(DetachTurn(p, turn), live, refs);
            && (out.Some? <==> exists r :: r in refs && r.proxy && r.proc == p && r.turn == turn)
            && (out.Some? ==> exists i: nat ::
                  && i < |refs| && refs[i].proxy && refs[i].proc == p && refs[i].turn == turn
                  && out.value == refs[..i] + refs[i + 1..]
                  && p !in ProxyProcs(out.value))
  {
    var hit := Find(refs, Turn(p, turn));
    if hit.Some? {
      Detached(refs, hit.value);
      assert refs[hit.value] in refs;
    } else {
      forall r | r in refs ensures !(r.proxy && r.proc == p && r.turn == turn) {
        assert !Hit(Turn(p, turn), r);
      }
    }
  }

  /** A stop-failure detach happens if and only if the native reference is there; it removes exactly it. */
  lemma FailNativeExact(refs: seq<Ref>, id: string, status: string, live: set<Proc>)
    requires WellFormed(refs)
    ensures var out := Apply(FailNative(id, status), live, refs);
            && (out.Some? <==> id != "" && exists r :: r in refs && !r.proxy && r.id == id)
            && (out.Some? ==> exists i: nat ::
                  && i < |refs| && !refs[i].proxy && refs[i].id == id
                  && out.value == refs[..i] + refs[i + 1..])
  {
    var hit := Find(refs, Native(id));
    if hit.None? {
      forall r | r in refs ensures !(!r.proxy && r.id == id) { assert !Hit(Native(id), r); }
    } else {
      assert refs[hit.value] in refs;
      forall j | 0 <= j < |refs| && j != hit.value ensures refs[j].proxy || refs[j].id != id {
        Apart(refs, j, hit.value);
      }
      DropOnly(refs, hit.value, (e: Ref) => !RefMatches(e, NativeRef(id, "", 0)));
    }
  }

  lemma DropOnly<T(!new)>(refs: seq<T>, i: nat, keep: T -> bool)
    requires i < |refs| && !keep(refs[i])
    requires forall j :: 0 <= j < |refs| && j != i ==> keep(refs[j])
    ensures Filter(refs, keep) == refs[..i] + refs[i + 1..]
  {
    hide Filter;
    OthersKept(refs, i, keep);
    FilterAround(refs[..i], refs[i], refs[i + 1..], keep);
    assert refs[..i] + [refs[i]] + refs[i + 1..] == refs;
  }

  lemma OthersKept<T(!new)>(refs: seq<T>, i: nat, keep: T -> bool)
    requires i < |refs| && forall j :: 0 <= j < |refs| && j != i ==> keep(refs[j])
    ensures (forall r :: r in refs[..i] ==> keep(r)) && forall r :: r in refs[i + 1..] ==> keep(r)
  {
    forall r | r in refs[..i] ensures keep(r) { var j :| 0 <= j < i && refs[j] == r; }
    forall r | r in refs[i + 1..] ensures keep(r) { var j :| i < j < |refs| && refs[j] == r; }
  }

  // ---------------------------------------------------------------------------------------------
  // Each change, place by place
  // ---------------------------------------------------------------------------------------------

  predicate IsNative(r: Ref, id: string) { !r.proxy && r.id == id }

  predicate IsProxyOf(r: Ref, p: Proc) { r.proxy && r.proc == p }

  predicate HasNative(refs: seq<Ref>, id: string) {
    exists i :: 0 <= i < |refs| && IsNative(refs[i], id)
  }

  predicate HasProxyOf(refs: seq<Ref>, p: Proc) {
    exists i :: 0 <= i < |refs| && IsProxyOf(refs[i], p)
  }

  ghost predicate DropsNative(was: seq<Ref>, now: seq<Ref>, id: string) {
    exists i :: 0 <= i < |was| && IsNative(was[i], id) && now == was[..i] + was[i + 1..]
  }

  ghost predicate DropsProxy(was: seq<Ref>, now: seq<Ref>, p: Proc) {
    exists i :: 0 <= i < |was| && IsProxyOf(was[i], p) && now == was[..i] + was[i + 1..]
  }

  /** Every reference but the one at `i` keeps its place and its fields. */
  ghost predicate SameBut(was: seq<Ref>, now: seq<Ref>, i: nat) {
    |now| == |was| && i < |was| && forall j :: 0 <= j < |was| && j != i ==> now[j] == was[j]
  }

  /** The native `id` has new tool uses, and nothing else is new. */
  ghost predicate Retooled(was: seq<Ref>, now: seq<Ref>, i: nat, id: string) {
    && SameBut(was, now, i) && IsNative(was[i], id)
    && now[i] == was[i].(toolUses := now[i].toolUses, delegating := now[i].toolUses != [])
  }

  ghost predicate Retagged(was: seq<Ref>, now: seq<Ref>, i: nat, p: Proc, turn: string, ts: int) {
    && SameBut(was, now, i) && IsProxyOf(was[i], p)
    && now[i].turn == turn && now[i].startedAt == ts && now[i] == was[i].(turn := turn, startedAt := ts)
  }

  predicate HasNewTool(was: seq<string>, tool: string, now: seq<string>) {
    if tool in was then now == was
    else if |was| < MAX_DELEGATING_TOOL_USE_IDS then now == was + [tool]
    else now == was[1..] + [tool]
  }

  ghost predicate LacksTool(was: seq<string>, tool: string, now: seq<string>) {
    if tool !in was then now == was
    else exists j :: 0 <= j < |was| && was[j] == tool && now == was[..j] + was[j + 1..]
  }

  /** What each change makes of a list. */
  ghost predicate Changes(m: Mutation, live: set<Proc>, was: seq<Ref>, now: seq<Ref>) {
    match m
    case NativeStart(id, typ, ts) =>
      now == if HasNative(was, id) then was else was + [Ref(id, typ, ts, NO_PROC, false, "", false, [])]
    case AttachProxy(typ, p, ts) =>
      now == if HasProxyOf(was, p) then was else was + [Ref("", typ, ts, p, true, "", false, [])]
    case UpsertBroker(p, turn, ts) =>
      if HasProxyOf(was, p) then exists i: nat :: Retagged(was, now, i, p, turn, ts)
      else now == was + [Ref("", "codex", ts, p, true, turn, false, [])]
    case NativeStop(id) => if HasNative(was, id) then DropsNative(was, now, id) else now == was
    case FailNative(id, _) => DropsNative(was, now, id)
    case DetachProxy(p) => DropsProxy(was, now, p)
    case DetachTurn(p, turn) =>
      exists i :: 0 <= i < |was| && IsProxyOf(was[i], p) && was[i].turn == turn && now == was[..i] + was[i + 1..]
    case Mark(id, tool) => exists i: nat :: Retooled(was, now, i, id) && HasNewTool(was[i].toolUses, tool, now[i].toolUses)
    case Unmark(id, tool) => exists i: nat :: Retooled(was, now, i, id) && LacksTool(was[i].toolUses, tool, now[i].toolUses)
    case ResetSession(baseline, _, _, _) =>
      now == Filter(was, (r: Ref) => if r.proxy then r.proc in live else NativeKey(r.typ, r.id, r.startedAt) !in baseline)
  }

  /** There is nothing to change: the handler returns without writing. */
  predicate Misses(m: Mutation, was: seq<Ref>) {
    match m
    case FailNative(id, _) => id == "" || !HasNative(was, id)
    case DetachProxy(p) => !HasProxyOf(was, p)
    case DetachTurn(p, turn) => forall i :: 0 <= i < |was| ==> !(IsProxyOf(was[i], p) && was[i].turn == turn)
    case Mark(id, _) => !HasNative(was, id)
    case Unmark(id, _) => !HasNative(was, id)
    case _ => false
  }

  /** A handler writes unless there is nothing to change, and what it writes differs exactly as the change says. */
  lemma ApplyChanges(m: Mutation, live: set<Proc>, refs: seq<Ref>)
    requires WellFormed(refs)
    ensures Apply(m, live, refs).None? <==> Misses(m, refs)
    ensures Apply(m, live, refs).Some? ==> Changes(m, live, refs, Apply(m, live, refs).value)
  {
    match m
    case NativeStart(id, typ, ts) => StartChanges(refs, NativeRef(id, typ, ts));
    case AttachProxy(typ, p, ts) => StartChanges(refs, ProxyRef(typ, p, "", ts));
    case NativeStop(id) => StopChanges(refs, id);
    case FailNative(id, _) => StopChanges(refs, id); FindHits(refs, Native(id));
    case UpsertBroker(p, turn, ts) => UpsertChanges(refs, p, turn, ts);
    case DetachProxy(p) => FindHits(refs, Broker(p));
    case DetachTurn(p, turn) => FindHits(refs, Turn(p, turn));
    case Mark(id, tool) => MarkChanges(refs, id, tool);
    case Unmark(id, tool) => UnmarkChanges(refs, id, tool);
    case ResetSession(baseline, _, _, _) => ResetChanges(refs, baseline, live);
  }

  lemma FindHits(refs: seq<Ref>, k: Key)
    ensures Find(refs, k).Some? <==> exists i :: 0 <= i < |refs| && Hit(k, refs[i])
  {
    if i :| 0 <= i < |refs| && Hit(k, refs[i]) { assert refs[i] in refs; }
  }

  lemma StartChanges(refs: seq<Ref>, n: Ref)
    requires n.proxy ==> n.turn == ""
    ensures UpdateSubagents(refs, Start, n)
         == if (if n.proxy then HasProxyOf(refs, n.proc) else HasNative(refs, n.id)) then refs else refs + [n]
  {
    if e :| e in refs && RefMatches(e, n) {
      var i :| 0 <= i < |refs| && refs[i] == e;
      assert if n.proxy then IsProxyOf(refs[i], n.proc) else IsNative(refs[i], n.id);
    } else {
      forall i | 0 <= i < |refs| ensures !(if n.proxy then IsProxyOf(refs[i], n.proc) else IsNative(refs[i], n.id)) {
        assert refs[i] in refs && !RefMatches(refs[i], n);
      }
    }
  }

  lemma StopChanges(refs: seq<Ref>, id: string)
    requires WellFormed(refs)
    ensures var now := UpdateSubagents(refs, Stop, NativeRef(id, "", 0));
            if HasNative(refs, id) then DropsNative(refs, now, id) else now == refs
  {
    var keep := (e: Ref) => !RefMatches(e, NativeRef(id, "", 0));
    if i :| 0 <= i < |refs| && IsNative(refs[i], id) {
      forall j | 0 <= j < |refs| && j != i ensures keep(refs[j]) { Apart(refs, i, j); }
      DropOnly(refs, i, keep);
    } else {
      forall e | e in refs ensures keep(e) {
        var i :| 0 <= i < |refs| && refs[i] == e;
        assert !IsNative(refs[i], id);
      }
      FilterAll(refs, keep);
    }
  }

  lemma UpsertChanges(refs: seq<Ref>, p: Proc, turn: string, ts: int)
    ensures Apply(UpsertBroker(p, turn, ts), {}, refs).Some?
    ensures Changes(UpsertBroker(p, turn, ts), {}, refs, Apply(UpsertBroker(p, turn, ts), {}, refs).value)
  {
    FindHits(refs, Broker(p));
    var now := Apply(UpsertBroker(p, turn, ts), {}, refs).value;
    if i :| 0 <= i < |refs| && Hit(Broker(p), refs[i]) {
      assert IsProxyOf(refs[i], p);
      assert Retagged(refs, now, Find(refs, Broker(p)).value, p, turn, ts);
    } else {
      assert forall i :: 0 <= i < |refs| && IsProxyOf(refs[i], p) ==> Hit(Broker(p), refs[i]);
    }
  }

  lemma MarkChanges(refs: seq<Ref>, id: string, tool: string)
    requires WellFormed(refs)
    ensures var m := Mark(id, tool);
            && (Apply(m, {}, refs).None? <==> Misses(m, refs))
            && (Apply(m, {}, refs).Some? ==> Changes(m, {}, refs, Apply(m, {}, refs).value))
  {
    var hit := Find(refs, Native(id));
    FindHits(refs, Native(id));
    assert forall i :: 0 <= i < |refs| ==> (IsNative(refs[i], id) <==> Hit(Native(id), refs[i]));
    if hit.Some? {
      assert refs[hit.value] in refs;
      RecordedKeepsNewest(refs[hit.value].toolUses, tool);
      var now := Apply(Mark(id, tool), {}, refs).value;
      assert Retooled(refs, now, hit.value, id) && HasNewTool(refs[hit.value].toolUses, tool, now[hit.value].toolUses);
    }
  }

  lemma UnmarkChanges(refs: seq<Ref>, id: string, tool: string)
    requires WellFormed(refs)
    ensures var m := Unmark(id, tool);
            && (Apply(m, {}, refs).None? <==> Misses(m, refs))
            && (Apply(m, {}, refs).Some? ==> Changes(m, {}, refs, Apply(m, {}, refs).value))
  {
    var hit := Find(refs, Native(id));
    FindHits(refs, Native(id));
    assert forall i :: 0 <= i < |refs| ==> (IsNative(refs[i], id) <==> Hit(Native(id), refs[i]));
    if hit.Some? {
      assert refs[hit.value] in refs;
      UnmarkedTools(refs[hit.value].toolUses, tool);
      var now := Apply(Unmark(id, tool), {}, refs).value;
      assert Retooled(refs, now, hit.value, id) && LacksTool(refs[hit.value].toolUses, tool, now[hit.value].toolUses);
    }
  }

  lemma UnmarkedTools(ids: seq<string>, tool: string)
    requires Distinct(ids)
    ensures LacksTool(ids, tool, Filter(ids, (t: string) => t != tool))
  {
    var keep := (t: string) => t != tool;
    if tool in ids {
      var j :| 0 <= j < |ids| && ids[j] == tool;
      forall i | 0 <= i < |ids| && i != j ensures keep(ids[i]) { }
      DropOnly(ids, j, keep);
    } else {
      FilterAll(ids, keep);
    }
  }

  lemma ResetChanges(refs: seq<Ref>, baseline: set<NativeKey>, live: set<Proc>)
    ensures Filter(refs, (r: Ref) => SurvivesReset(baseline, live, r))
         == Filter(refs, (r: Ref) => if r.proxy then r.proc in live else NativeKey(r.typ, r.id, r.startedAt) !in baseline)
  {
    SameFilter(refs, (r: Ref) => SurvivesReset(baseline, live, r),
               (r: Ref) => if r.proxy then r.proc in live else NativeKey(r.typ, r.id, r.startedAt) !in baseline);
  }

  lemma {:induction false} SameFilter(refs: seq<Ref>, f: Ref -> bool, g: Ref -> bool)
    requires forall r :: f(r) == g(r)
    ensures Filter(refs, f) == Filter(refs, g)
  {
    if refs != [] { SameFilter(refs[1..], f, g); }
  }

  ghost predicate OnlyProxyOf(refs: seq<Ref>, i: int, p: Proc, turn: string, ts: int) {
    && 0 <= i < |refs| && IsProxyOf(refs[i], p) && refs[i].turn == turn && refs[i].startedAt == ts
    && forall j :: 0 <= j < |refs| && j != i ==> !IsProxyOf(refs[j], p)
  }

  /** After an upsert exactly one reference stands for the broker, in the new turn and freshly stamped. */
  lemma UpsertLeavesOne(refs: seq<Ref>, p: Proc, turn: string, ts: int, live: set<Proc>)
    requires WellFormed(refs)
    ensures var out := Apply(UpsertBroker(p, turn, ts), live, refs);
            out.Some? && exists i :: OnlyProxyOf(out.value, i, p, turn, ts)
  {
    var m := UpsertBroker(p, turn, ts);
    ApplyChanges(m, live, refs);
    ApplyKeepsWellFormed(m, live, refs);
    var now := Apply(m, live, refs).value;
    var i: nat := |refs|;
    if HasProxyOf(refs, p) {
      i :| Retagged(refs, now, i, p, turn, ts);
    }
    assert i < |now| && IsProxyOf(now[i], p) && now[i].turn == turn && now[i].startedAt == ts;
    forall j | 0 <= j < |now| && j != i ensures !IsProxyOf(now[j], p) { Apart(now, i, j); }
    assert OnlyProxyOf(now, i, p, turn, ts);
  }

  /**
   * A start that reuses the id of a native already on the list changes nothing: the old reference
   * keeps its own start stamp.  A later reset whose baseline holds that reference then drops the id.
   */
  lemma ReusedIdIsLost(refs: seq<Ref>, id: string, typ: string, ts: int, baseline: set<NativeKey>, live: set<Proc>,
                       agentType: string, ppid: int, status: string)
    requires WellFormed(refs)
    requires forall r :: r in refs && !r.proxy && r.id == id ==> KeyOf(r) in baseline
    requires NativeKey(typ, id, ts) !in baseline
    ensures var started := Apply(NativeStart(id, typ, ts), live, refs).value;
            var reset := Apply(ResetSession(baseline, agentType, ppid, status), live, started).value;
            (exists r :: r in reset && !r.proxy && r.id == id) <==> !(exists r :: r in refs && !r.proxy && r.id == id)
  {
    var n := NativeRef(id, typ, ts);
    var started := Apply(NativeStart(id, typ, ts), live, refs).value;
    var reset := Apply(ResetSession(baseline, agentType, ppid, status), live, started).value;
    if r :| r in refs && !r.proxy && r.id == id {
      assert RefMatches(r, n);
      assert started == refs;
      assert forall x :: x in reset ==> x in refs && SurvivesReset(baseline, live, x);
    } else {
      assert started == refs + [n];
      assert KeyOf(n) !in baseline;
      assert n in started && SurvivesReset(baseline, live, n);
      assert n in reset;
    }
  }
}
