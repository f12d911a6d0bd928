/**
 * Concurrent sweep requests: the two-level lock protocol with abandoned waits, and the kills that run
 * inside it.
 *
 * An unfiltered request takes the global lock for writing.  A filtered one takes it for reading and then
 * its broker's lock, for writing to apply and for reading in a dry run.  A wait that is given up leaves
 * a helper behind that takes the lock when it comes and releases it at once.  Every action is one step;
 * a lock may be granted to any waiter that it can be shared with, in any order.
 */
module SweepRuns {
  import opened Basics
  import opened Quarantine
  import D = Decision
  import K = KillSequence

  datatype Lock = Global | PerKey(key: string)

  /** A place in a lock's queue: each request has at most one on the global lock and one on its broker's. */
  datatype TicketId = TicketId(req: nat, onGlobal: bool)

  /** `orphan` marks a ticket whose request has given up waiting. */
  datatype Ticket = Ticket(lock: Lock, write: bool, granted: bool, orphan: bool)

  /** One broker record of a scan, with everything the world will answer about it. */
  datatype Visit = Visit(broker: D.Broker, world: D.World, target: K.Target, wiring: K.Wiring, answers: K.Answers)

  datatype Phase =
    | WaitGlobal
    | WaitKey
    | Scanning(todo: seq<Visit>)
    | Killing(v: Visit, next: nat, todo: seq<Visit>)
    | Quarantining(v: Visit, todo: seq<Visit>)
    | LeavingGlobal
    | Finished

  datatype Request = Request(filter: string, apply: bool, phase: Phase, visit: nat)

  /** Effect number `n` of a kill run by request `req`. */
  datatype Logged = Logged(req: nat, visit: nat, filter: string, apply: bool, v: Visit, n: nat)

  datatype State = State(reqs: map<nat, Request>, tickets: map<TicketId, Ticket>, quarantine: seq<Entry>, log: seq<Logged>)

  datatype Event =
    | Arrive(r: nat, filter: string, apply: bool)
    | Grant(t: TicketId)
    | Go(r: nat, visits: seq<Visit>)           // the request's next action; `visits` is the scan's result
    | Abandon(r: nat)
    | Release(t: TicketId)                     // a helper drops the lock it was granted

  predicate Initial(s: State) {
    s.reqs == map[] && s.tickets == map[] && s.log == []
  }

  // ---------------------------------------------------------------------------------------------
  // Which records are killed
  // ---------------------------------------------------------------------------------------------

  function Effects(v: Visit): seq<K.Effect> {
    K.Effects(v.target, v.wiring, v.answers)
  }

  predicate ShouldKill(filter: string, apply: bool, v: Visit, cfg: D.Settings) {
    apply && D.Killable(v.broker, v.world, cfg) && (D.Foreign(v.broker, v.world) ==> filter != "")
  }

  /** The handler's case split, and the reason it records. */
  method DecideKill(filter: string, apply: bool, v: Visit, cfg: D.Settings, jobsReadable: bool)
    returns (shouldKill: bool, reason: D.Reason)
    ensures shouldKill <==> ShouldKill(filter, apply, v, cfg)
    ensures reason == D.ManualOverride <==> shouldKill && D.Foreign(v.broker, v.world)
    ensures reason == D.ForeignQuarantine <==> !shouldKill && D.Foreign(v.broker, v.world)
  {
    var decision := D.EvalDecision(v.broker, v.world, cfg, jobsReadable);
    var isForeign := decision.reason == D.ForeignQuarantine;
    shouldKill, reason := false, decision.reason;
    if !apply {
    } else if !decision.kill {
    } else if filter == "" && isForeign {
    } else if filter != "" && isForeign {
      shouldKill, reason := true, D.ManualOverride;
    } else {
      shouldKill := true;
    }
  }

  // ---------------------------------------------------------------------------------------------
  // The steps
  // ---------------------------------------------------------------------------------------------

  predicate CanShare(tickets: map<TicketId, Ticket>, t: TicketId)
    requires t in tickets
  {
    forall u :: u in tickets && u != t && tickets[u].lock == tickets[t].lock && tickets[u].granted ==>
      !tickets[u].write && !tickets[t].write
  }

  predicate Granted(s: State, t: TicketId) {
    t in s.tickets && s.tickets[t].granted
  }

  predicate Enabled(s: State, e: Event) {
    match e
    case Arrive(r, _, _) => r !in s.reqs
    case Grant(t) => t in s.tickets && !s.tickets[t].granted && CanShare(s.tickets, t)
    case Go(r, _) =>
      && r in s.reqs && s.reqs[r].phase != Finished
      && (s.reqs[r].phase == WaitGlobal ==> Granted(s, TicketId(r, true)))
      && (s.reqs[r].phase == WaitKey ==> Granted(s, TicketId(r, false)))
    case Abandon(r) => r in s.reqs && (s.reqs[r].phase == WaitGlobal || s.reqs[r].phase == WaitKey)
    case Release(t) => Granted(s, t) && s.tickets[t].orphan
  }

  function At(s: State, r: nat, phase: Phase): State
    requires r in s.reqs
  {
    s.(reqs := s.reqs[r := s.reqs[r].(phase := phase)])
  }

  /** On to the next record. */
  function Onward(s: State, r: nat, todo: seq<Visit>): State
    requires r in s.reqs
  {
    s.(reqs := s.reqs[r := s.reqs[r].(phase := Scanning(todo), visit := s.reqs[r].visit + 1)])
  }

  /** What the evaluation and the kill sequence say about a record. */
  datatype Judgement = Judgement(kill: bool, effects: nat, mismatch: bool)

  function Judge(q: Request, cfg: D.Settings): Judgement {
    match q.phase
    case Scanning(todo) => Judgement(todo != [] && ShouldKill(q.filter, q.apply, todo[0], cfg), 0, false)
    case Killing(v, _, _) => Judgement(true, |Effects(v)|, K.Mismatches(v.target, v.wiring, v.answers))
    case _ => Judgement(false, 0, false)
  }

  function StepGo(s: State, r: nat, visits: seq<Visit>, cfg: D.Settings): State
    requires r in s.reqs
  {
    Judged(s, r, visits, Judge(s.reqs[r], cfg))
  }

  /** Holding the global lock for reading, queue for the broker's lock. */
  function StepQueue(s: State, r: nat): State
    requires r in s.reqs
  {
    var q := s.reqs[r];
    At(s, r, WaitKey).(tickets := s.tickets[TicketId(r, false) := Ticket(PerKey(q.filter), q.apply, false, false)])
  }

  function Judged(s: State, r: nat, visits: seq<Visit>, j: Judgement): State
    requires r in s.reqs
  {
    var q := s.reqs[r];
    match q.phase
    case WaitGlobal =>
      if q.filter == "" then At(s, r, Scanning(visits)) else StepQueue(s, r)
    case WaitKey => At(s, r, Scanning(visits))
    case Scanning(todo) =>
      if todo == [] then
        if q.filter == "" then At(s, r, Finished).(tickets := s.tickets - {TicketId(r, true)})
        else At(s, r, LeavingGlobal).(tickets := s.tickets - {TicketId(r, false)})
      else if (q.filter != "" && todo[0].broker.key != q.filter) || IsQuarantined(s.quarantine, todo[0].broker.key)
              || !j.kill then Onward(s, r, todo[1..])
      else At(s, r, Killing(todo[0], 0, todo[1..]))
    case Killing(v, n, todo) =>
      if n < j.effects then
        At(s, r, Killing(v, n + 1, todo)).(log := s.log + [Logged(r, q.visit, q.filter, q.apply, v, n)])
      else if j.mismatch then At(s, r, Quarantining(v, todo))
      else Onward(s, r, todo)
    case Quarantining(v, todo) =>
      Onward(s, r, todo).(quarantine := Added(s.quarantine, Entry(v.broker.key, v.target.pid, v.target.lstart, 0)))
    case LeavingGlobal => At(s, r, Finished).(tickets := s.tickets - {TicketId(r, true)})
    case Finished => s
  }

  function Step(s: State, e: Event, cfg: D.Settings): State
    requires Enabled(s, e)
  {
    match e
    case Arrive(r, filter, apply) =>
      s.(reqs := s.reqs[r := Request(filter, apply, WaitGlobal, 0)],
         tickets := s.tickets[TicketId(r, true) := Ticket(Global, filter == "", false, false)])
    case Grant(t) => s.(tickets := s.tickets[t := s.tickets[t].(granted := true)])
    case Go(r, visits) => StepGo(s, r, visits, cfg)
    case Abandon(r) =>
      var t := TicketId(r, s.reqs[r].phase == WaitGlobal);
      var s1 := At(s, r, if s.reqs[r].phase == WaitGlobal then Finished else LeavingGlobal);
      if t in s.tickets then s1.(tickets := s.tickets[t := s.tickets[t].(orphan := true)]) else s1
    case Release(t) => s.(tickets := s.tickets - {t})
  }

  /** Events that are not enabled when their turn comes have no effect. */
  function Exec(s0: State, evs: seq<Event>, cfg: D.Settings): State {
    if evs == [] then s0
    else
      var s, e := Exec(s0, evs[..|evs| - 1], cfg), evs[|evs| - 1];
      if Enabled(s, e) then Step(s, e, cfg) else s
  }

  // ---------------------------------------------------------------------------------------------
  // The locks
  // ---------------------------------------------------------------------------------------------

  predicate Inside(p: Phase) { p.Scanning? || p.Killing? || p.Quarantining? }

  predicate Held(tickets: map<TicketId, Ticket>, t: TicketId) {
    t in tickets && tickets[t].granted && !tickets[t].orphan
  }

  /** Which tickets a request has in each phase. */
  predicate TicketsOf(tickets: map<TicketId, Ticket>, r: nat, q: Request) {
    var g, k := TicketId(r, true), TicketId(r, false);
    match q.phase
    case WaitGlobal => g in tickets && !tickets[g].orphan && k !in tickets
    case WaitKey => Held(tickets, g) && k in tickets && !tickets[k].orphan && q.filter != ""
    case LeavingGlobal => Held(tickets, g) && (k in tickets ==> tickets[k].orphan)
    case Finished => (g in tickets ==> tickets[g].orphan) && (k in tickets ==> tickets[k].orphan)
    case _ => Held(tickets, g) && if q.filter == "" then k !in tickets else Held(tickets, k)
  }

  predicate Shape(s: State, t: TicketId)
    requires t in s.tickets
  {
    && t.req in s.reqs
    && var q := s.reqs[t.req];
       if t.onGlobal then s.tickets[t].lock == Global && s.tickets[t].write == (q.filter == "")
       else s.tickets[t].lock == PerKey(q.filter) && s.tickets[t].write == q.apply && q.filter != ""
  }

  /** Two tickets that hold the same lock. */
  predicate Conflict(t: TicketId, a: Ticket, u: TicketId, b: Ticket) {
    t != u && a.granted && b.granted && a.lock == b.lock
  }

  ghost predicate Exclusive(tickets: map<TicketId, Ticket>) {
    forall t, u :: t in tickets && u in tickets && Conflict(t, tickets[t], u, tickets[u]) ==>
      !tickets[t].write && !tickets[u].write
  }

  ghost predicate LockInv(s: State) {
    && Exclusive(s.tickets)
    && (forall t :: t in s.tickets ==> Shape(s, t))
    && (forall r :: r in s.reqs ==> TicketsOf(s.tickets, r, s.reqs[r]))
  }

  /** A request changes its phase, or its own tickets with it. */
  lemma LockOwn(s: State, s': State, r: nat)
    requires LockInv(s) && Exclusive(s'.tickets) && r in s'.reqs
    requires forall j :: j != r ==> (j in s.reqs <==> j in s'.reqs) && (j in s.reqs ==> s.reqs[j] == s'.reqs[j])
    requires forall t: TicketId :: t.req != r ==> (t in s.tickets <==> t in s'.tickets) && (t in s.tickets ==> s.tickets[t] == s'.tickets[t])
    requires TicketId(r, true) in s'.tickets ==> Shape(s', TicketId(r, true))
    requires TicketId(r, false) in s'.tickets ==> Shape(s', TicketId(r, false))
    requires TicketsOf(s'.tickets, r, s'.reqs[r])
    ensures LockInv(s')
  {
    forall t | t in s'.tickets ensures Shape(s', t) {
      if t.req != r { assert Shape(s, t); } else { assert t == TicketId(r, t.onGlobal); }
    }
    forall j | j in s'.reqs ensures TicketsOf(s'.tickets, j, s'.reqs[j]) {
      if j != r { assert TicketsOf(s.tickets, j, s.reqs[j]); }
    }
  }

  /** Actions that leave the tickets alone. */
  lemma LockPhase(s: State, r: nat, q: Request)
    requires LockInv(s) && r in s.reqs && q.filter == s.reqs[r].filter && q.apply == s.reqs[r].apply
    requires TicketsOf(s.tickets, r, q)
    ensures LockInv(s.(reqs := s.reqs[r := q]))
  {
    var s' := s.(reqs := s.reqs[r := q]);
    assert TicketId(r, true) in s.tickets ==> Shape(s, TicketId(r, true));
    assert TicketId(r, false) in s.tickets ==> Shape(s, TicketId(r, false));
    LockOwn(s, s', r);
  }

  lemma LockQueue(s: State, r: nat)
    requires LockInv(s) && Enabled(s, Go(r, [])) && s.reqs[r].phase.WaitGlobal? && s.reqs[r].filter != ""
    ensures LockInv(StepQueue(s, r))
  {
    assert TicketsOf(s.tickets, r, s.reqs[r]);
    assert Shape(s, TicketId(r, true));
    LockOwn(s, StepQueue(s, r), r);
  }

  lemma LockLeave(s: State, r: nat, onGlobal: bool, phase: Phase)
    requires LockInv(s) && r in s.reqs
    requires TicketsOf(s.tickets - {TicketId(r, onGlobal)}, r, s.reqs[r].(phase := phase))
    ensures LockInv(At(s, r, phase).(tickets := s.tickets - {TicketId(r, onGlobal)}))
  {
    var s' := At(s, r, phase).(tickets := s.tickets - {TicketId(r, onGlobal)});
    assert TicketId(r, true) in s.tickets ==> Shape(s, TicketId(r, true));
    assert TicketId(r, false) in s.tickets ==> Shape(s, TicketId(r, false));
    LockOwn(s, s', r);
  }

  lemma JudgedPhase(s: State, r: nat, visits: seq<Visit>, j: Judgement)
    requires r in s.reqs && Enabled(s, Go(r, visits)) && !Queues(s.reqs[r]) && !Leaves(s.reqs[r].phase)
    requires TicketsOf(s.tickets, r, s.reqs[r])
    ensures var s', q := Judged(s, r, visits, j), s.reqs[r];
            && s'.tickets == s.tickets && r in s'.reqs && s'.reqs == s.reqs[r := s'.reqs[r]]
            && s'.reqs[r].filter == q.filter && s'.reqs[r].apply == q.apply && TicketsOf(s.tickets, r, s'.reqs[r])
  {
  }

  lemma JudgedLeaves(s: State, r: nat, visits: seq<Visit>, j: Judgement)
    requires r in s.reqs && Leaves(s.reqs[r].phase) && TicketsOf(s.tickets, r, s.reqs[r])
    ensures var q := s.reqs[r];
            var onGlobal := q.phase.LeavingGlobal? || q.filter == "";
            var phase := if onGlobal then Finished else LeavingGlobal;
            && Judged(s, r, visits, j) == At(s, r, phase).(tickets := s.tickets - {TicketId(r, onGlobal)})
            && TicketsOf(s.tickets - {TicketId(r, onGlobal)}, r, q.(phase := phase))
  {
  }

  predicate Queues(q: Request) { q.phase.WaitGlobal? && q.filter != "" }

  lemma LockJudged(s: State, r: nat, visits: seq<Visit>, j: Judgement)
    requires LockInv(s) && Enabled(s, Go(r, visits))
    ensures LockInv(Judged(s, r, visits, j))
  {
    var q := s.reqs[r];
    assert TicketsOf(s.tickets, r, q);
    if Queues(q) {
      LockQueue(s, r);
    } else if Leaves(q.phase) {
      JudgedLeaves(s, r, visits, j);
      var onGlobal := q.phase.LeavingGlobal? || q.filter == "";
      LockLeave(s, r, onGlobal, if onGlobal then Finished else LeavingGlobal);
    } else {
      JudgedPhase(s, r, visits, j);
      var s' := Judged(s, r, visits, j);
      LockPhase(s, r, s'.reqs[r]);
      SameLocks(s.(reqs := s.reqs[r := s'.reqs[r]]), s');
    }
  }

  predicate Leaves(p: Phase) { p.LeavingGlobal? || (p.Scanning? && p.todo == []) }

  lemma SameLocks(s: State, s': State)
    requires LockInv(s) && s'.reqs == s.reqs && s'.tickets == s.tickets
    ensures LockInv(s')
  {
    forall t | t in s'.tickets ensures Shape(s', t) { assert Shape(s, t); }
  }

  lemma LockGo(s: State, r: nat, visits: seq<Visit>, cfg: D.Settings)
    requires LockInv(s) && Enabled(s, Go(r, visits))
    ensures LockInv(StepGo(s, r, visits, cfg))
  {
    LockJudged(s, r, visits, Judge(s.reqs[r], cfg));
  }

  /** One ticket is granted, abandoned or dropped, and its request moves with it. */
  lemma LockOneTicket(s: State, s': State, t: TicketId)
    requires LockInv(s) && t in s.tickets && t.req in s'.reqs && Exclusive(s'.tickets)
    requires s'.reqs == s.reqs[t.req := s'.reqs[t.req]]
    requires s'.reqs[t.req].filter == s.reqs[t.req].filter && s'.reqs[t.req].apply == s.reqs[t.req].apply
    requires (t !in s'.tickets && s'.tickets == s.tickets - {t})
             || (t in s'.tickets && s'.tickets == s.tickets[t := s'.tickets[t]]
                 && s'.tickets[t].lock == s.tickets[t].lock && s'.tickets[t].write == s.tickets[t].write)
    requires TicketsOf(s'.tickets, t.req, s'.reqs[t.req])
    ensures LockInv(s')
  {
    assert TicketId(t.req, true) in s.tickets ==> Shape(s, TicketId(t.req, true));
    assert TicketId(t.req, false) in s.tickets ==> Shape(s, TicketId(t.req, false));
    LockOwn(s, s', t.req);
  }

  lemma LockGrant(s: State, t: TicketId, cfg: D.Settings)
    requires LockInv(s) && Enabled(s, Grant(t))
    ensures LockInv(Step(s, Grant(t), cfg))
  {
    assert Shape(s, t) && TicketsOf(s.tickets, t.req, s.reqs[t.req]);
    var s' := Step(s, Grant(t), cfg);
    assert s'.reqs == s.reqs[t.req := s.reqs[t.req]];
    LockOneTicket(s, s', t);
  }

  lemma LockRelease(s: State, t: TicketId, cfg: D.Settings)
    requires LockInv(s) && Enabled(s, Release(t))
    ensures LockInv(Step(s, Release(t), cfg))
  {
    assert Shape(s, t) && TicketsOf(s.tickets, t.req, s.reqs[t.req]);
    var s' := Step(s, Release(t), cfg);
    assert s'.reqs == s.reqs[t.req := s.reqs[t.req]];
    LockOneTicket(s, s', t);
  }

  lemma LockAbandon(s: State, r: nat, cfg: D.Settings)
    requires LockInv(s) && Enabled(s, Abandon(r))
    ensures LockInv(Step(s, Abandon(r), cfg))
  {
    assert TicketsOf(s.tickets, r, s.reqs[r]);
    LockOneTicket(s, Step(s, Abandon(r), cfg), TicketId(r, s.reqs[r].phase == WaitGlobal));
  }

  lemma LockArrive(s: State, r: nat, filter: string, apply: bool, cfg: D.Settings)
    requires LockInv(s) && Enabled(s, Arrive(r, filter, apply))
    ensures LockInv(Step(s, Arrive(r, filter, apply), cfg))
  {
    assert TicketId(r, true) in s.tickets ==> Shape(s, TicketId(r, true));
    assert TicketId(r, false) in s.tickets ==> Shape(s, TicketId(r, false));
    LockOwn(s, Step(s, Arrive(r, filter, apply), cfg), r);
  }

  lemma LockStep(s: State, e: Event, cfg: D.Settings)
    requires LockInv(s) && Enabled(s, e)
    ensures LockInv(Step(s, e, cfg))
  {
    match e
    case Go(r, visits) => LockGo(s, r, visits, cfg);
    case Grant(t) => LockGrant(s, t, cfg);
    case Release(t) => LockRelease(s, t, cfg);
    case Abandon(r) => LockAbandon(s, r, cfg);
    case Arrive(r, filter, apply) => LockArrive(s, r, filter, apply, cfg);
  }

  lemma {:induction false} LocksReachable(s0: State, evs: seq<Event>, cfg: D.Settings)
    requires Initial(s0)
    ensures LockInv(Exec(s0, evs, cfg))
  {
    if evs != [] {
      LocksReachable(s0, evs[..|evs| - 1], cfg);
      var s, e := Exec(s0, evs[..|evs| - 1], cfg), evs[|evs| - 1];
      if Enabled(s, e) { LockStep(s, e, cfg); }
    }
  }

  lemma Excluded(s: State, a: nat, b: nat)
    requires LockInv(s) && a in s.reqs && b in s.reqs && a != b && Inside(s.reqs[a].phase) && Inside(s.reqs[b].phase)
    ensures s.reqs[a].filter != "" && s.reqs[b].filter != ""
    ensures s.reqs[a].filter != s.reqs[b].filter || (!s.reqs[a].apply && !s.reqs[b].apply)
  {
    assert TicketsOf(s.tickets, a, s.reqs[a]) && TicketsOf(s.tickets, b, s.reqs[b]);
    assert Shape(s, TicketId(a, true)) && Shape(s, TicketId(b, true));
    if s.reqs[a].filter != "" && s.reqs[b].filter != "" {
      assert Shape(s, TicketId(a, false)) && Shape(s, TicketId(b, false));
    }
  }

  /**
   * Two requests are in the scan section together only if both are filtered and either their broker keys
   * differ or both are dry runs.
   */
  lemma SectionExclusion(s0: State, evs: seq<Event>, cfg: D.Settings, a: nat, b: nat)
    requires Initial(s0) && a != b
    requires var s := Exec(s0, evs, cfg);
             a in s.reqs && b in s.reqs && Inside(s.reqs[a].phase) && Inside(s.reqs[b].phase)
    ensures var s := Exec(s0, evs, cfg);
            && s.reqs[a].filter != "" && s.reqs[b].filter != ""
            && (s.reqs[a].filter != s.reqs[b].filter || (!s.reqs[a].apply && !s.reqs[b].apply))
  {
    LocksReachable(s0, evs, cfg);
    Excluded(Exec(s0, evs, cfg), a, b);
  }

  /**
   * A lock that any reader/writer lock, however it orders its queue, must hand to someone: nobody holds
   * it, or this reader waits while no writer holds it or waits for it.
   */
  ghost predicate MustGrant(s: State, t: TicketId) {
    && t in s.tickets && !s.tickets[t].granted
    && ((forall u :: u in s.tickets && s.tickets[u].lock == s.tickets[t].lock ==> !s.tickets[u].granted)
        || (forall u :: u in s.tickets && s.tickets[u].lock == s.tickets[t].lock ==> !s.tickets[u].write))
  }

  /** Somebody can act without waiting for anybody. */
  ghost predicate Moves(s: State) {
    || (exists r :: Enabled(s, Go(r, [])))
    || (exists t :: Enabled(s, Release(t)))
    || (exists t :: MustGrant(s, t))
  }

  /** Whoever holds a broker's lock can act: the section and the helpers never wait for another lock. */
  lemma KeyHolderMoves(s: State, u: TicketId)
    requires LockInv(s) && Granted(s, u) && !u.onGlobal
    ensures Enabled(s, Go(u.req, [])) || Enabled(s, Release(u))
  {
    assert Shape(s, u) && TicketsOf(s.tickets, u.req, s.reqs[u.req]);
  }

  /** Whoever holds the global lock can act, unless its request waits for a broker's lock. */
  lemma GlobalHolderMoves(s: State, u: TicketId)
    requires LockInv(s) && Granted(s, u) && u.onGlobal && TicketId(u.req, false) !in s.tickets
    ensures Enabled(s, Go(u.req, [])) || Enabled(s, Release(u))
  {
    assert Shape(s, u) && TicketsOf(s.tickets, u.req, s.reqs[u.req]);
    assert u == TicketId(u.req, true);
  }

  /** Nor does a waiting ticket on a broker's lock ever stop everything. */
  lemma KeyWaiterMoves(s: State, t: TicketId)
    requires LockInv(s) && t in s.tickets && !t.onGlobal
    ensures Moves(s)
  {
    if u :| u in s.tickets && s.tickets[u].lock == s.tickets[t].lock && s.tickets[u].granted {
      assert Shape(s, t) && Shape(s, u);
      KeyHolderMoves(s, u);
    } else {
      assert MustGrant(s, t);
    }
  }

  lemma UnfinishedHasTicket(s: State, r: nat)
    requires LockInv(s) && r in s.reqs && s.reqs[r].phase != Finished
    ensures TicketId(r, true) in s.tickets
  {
    assert TicketsOf(s.tickets, r, s.reqs[r]);
  }

  /**
   * No reachable state is deadlocked, whatever order the locks serve their queues in: while any request is
   * unfinished or any lock is held or waited for, somebody can act.
   */
  lemma NeverDeadlocked(s0: State, evs: seq<Event>, cfg: D.Settings)
    requires Initial(s0)
    requires var s := Exec(s0, evs, cfg); s.tickets != map[] || exists r :: r in s.reqs && s.reqs[r].phase != Finished
    ensures Moves(Exec(s0, evs, cfg))
  {
    LocksReachable(s0, evs, cfg);
    var s := Exec(s0, evs, cfg);
    if r :| r in s.reqs && s.reqs[r].phase != Finished { UnfinishedHasTicket(s, r); }
    if t :| t in s.tickets && !t.onGlobal {
      KeyWaiterMoves(s, t);
    } else {
      var t :| t in s.tickets;
      if u :| u in s.tickets && s.tickets[u].granted {
        GlobalHolderMoves(s, u);
      } else {
        assert MustGrant(s, t);
      }
    }
  }

  predicate Abandoned(s: State, t: TicketId) {
    t in s.tickets && s.tickets[t].orphan
  }

  /** The ticket has left, and its request is past the point where it could take another. */
  predicate Departed(s: State, t: TicketId) {
    t !in s.tickets && t.req in s.reqs && (s.reqs[t.req].phase.LeavingGlobal? || s.reqs[t.req].phase.Finished?)
  }

  /** Tickets that are abandoned play no part in what any request does next. */
  lemma AbandonedJudged(s: State, r: nat, visits: seq<Visit>, j: Judgement, t: TicketId)
    requires LockInv(s) && Enabled(s, Go(r, visits)) && Abandoned(s, t)
    ensures t in Judged(s, r, visits, j).tickets && Judged(s, r, visits, j).tickets[t] == s.tickets[t]
  {
    var q := s.reqs[r];
    assert TicketsOf(s.tickets, r, q) && t == TicketId(t.req, t.onGlobal);
    if Leaves(q.phase) {
      JudgedLeaves(s, r, visits, j);
    } else if !Queues(q) {
      JudgedPhase(s, r, visits, j);
    }
  }

  /** An abandoned ticket leaves only by its own helper, which holds the lock then; nothing else alters it. */
  lemma AbandonedStep(s: State, e: Event, t: TicketId, cfg: D.Settings)
    requires LockInv(s) && Enabled(s, e) && Abandoned(s, t)
    ensures var s' := Step(s, e, cfg);
            if e == Release(t) then
              s.tickets[t].granted && s'.tickets == s.tickets - {t} && s'.reqs == s.reqs && Departed(s', t)
            else
              && Abandoned(s', t) && s'.tickets[t].lock == s.tickets[t].lock && s'.tickets[t].write == s.tickets[t].write
              && (s.tickets[t].granted ==> s'.tickets[t].granted)
  {
    assert Shape(s, t) && TicketsOf(s.tickets, t.req, s.reqs[t.req]) && t == TicketId(t.req, t.onGlobal);
    if e.Go? { AbandonedJudged(s, e.r, e.visits, Judge(s.reqs[e.r], cfg), t); }
  }

  lemma DepartedStays(s: State, e: Event, t: TicketId, cfg: D.Settings)
    requires Enabled(s, e) && Departed(s, t)
    ensures Departed(Step(s, e, cfg), t)
  {
    assert t == TicketId(t.req, t.onGlobal);
  }

  /** How often a helper has dropped this ticket's lock. */
  function Releases(s0: State, evs: seq<Event>, cfg: D.Settings, t: TicketId): nat {
    if evs == [] then 0
    else
      var front, e := evs[..|evs| - 1], evs[|evs| - 1];
      Releases(s0, front, cfg, t) + if e == Release(t) && Enabled(Exec(s0, front, cfg), e) then 1 else 0
  }

  lemma {:induction false} ReleasedOnce(s0: State, evs: seq<Event>, cfg: D.Settings, t: TicketId)
    requires Initial(s0)
    ensures Releases(s0, evs, cfg, t) <= 1 && (Releases(s0, evs, cfg, t) == 1 ==> Departed(Exec(s0, evs, cfg), t))
  {
    if evs != [] {
      var front, e := evs[..|evs| - 1], evs[|evs| - 1];
      var s := Exec(s0, front, cfg);
      ReleasedOnce(s0, front, cfg, t);
      if Enabled(s, e) {
        if Departed(s, t) { DepartedStays(s, e, t, cfg); }
        if e == Release(t) {
          LocksReachable(s0, front, cfg);
          AbandonedStep(s, e, t, cfg);
        }
      }
    }
  }

  /**
   * A wait that was given up at some point of a run drops exactly the lock it queued for, once, and only
   * after obtaining it: from then on either its ticket still stands, for the same lock in the same mode and
   * with no release yet, or its helper has released it exactly once.
   */
  lemma {:induction false} AbandonedWaitReleasesOnce(s0: State, evs: seq<Event>, cfg: D.Settings, i: nat, t: TicketId)
    requires Initial(s0) && i <= |evs| && Abandoned(Exec(s0, evs[..i], cfg), t)
    ensures var a, s := Exec(s0, evs[..i], cfg).tickets[t], Exec(s0, evs, cfg);
            if t in s.tickets then
              && s.tickets[t].orphan && s.tickets[t].lock == a.lock && s.tickets[t].write == a.write
              && (a.granted ==> s.tickets[t].granted) && Releases(s0, evs, cfg, t) == 0
            else Releases(s0, evs, cfg, t) == 1
    decreases |evs|
  {
    ReleasedOnce(s0, evs, cfg, t);
    if i == |evs| {
      assert evs[..i] == evs;
    } else {
      var front, e := evs[..|evs| - 1], evs[|evs| - 1];
      var s := Exec(s0, front, cfg);
      assert front[..i] == evs[..i];
      AbandonedWaitReleasesOnce(s0, front, cfg, i, t);
      LocksReachable(s0, front, cfg);
      if Enabled(s, e) {
        if Abandoned(s, t) {
          AbandonedStep(s, e, t, cfg);
        } else {
          ReleasedOnce(s0, front, cfg, t);
          DepartedStays(s, e, t, cfg);
        }
      }
    }
  }

  /** Of all that can happen next, only the helper's release takes the ticket away, and it takes nothing else. */
  ghost predicate OnlyHelperReleases(s: State, t: TicketId, cfg: D.Settings) {
    forall e :: Enabled(s, e) ==>
      if e == Release(t) then Step(s, e, cfg).tickets == s.tickets - {t} && Step(s, e, cfg).reqs == s.reqs
      else Abandoned(Step(s, e, cfg), t)
  }

  lemma HelperReleases(s: State, t: TicketId, cfg: D.Settings)
    requires LockInv(s) && Abandoned(s, t)
    ensures OnlyHelperReleases(s, t, cfg)
  {
    forall e | Enabled(s, e)
      ensures if e == Release(t) then Step(s, e, cfg).tickets == s.tickets - {t} && Step(s, e, cfg).reqs == s.reqs
              else Abandoned(Step(s, e, cfg), t)
    {
      AbandonedStep(s, e, t, cfg);
    }
  }

  /**
   * Nothing leaks: in every reachable state a ticket that is not abandoned belongs to a request at work,
   * and an abandoned one leaves only by its helper; so when every request is finished and no helper is
   * left, every lock is free.
   */
  lemma AbandonedWaitsLeakNothing(s0: State, evs: seq<Event>, cfg: D.Settings)
    requires Initial(s0)
    ensures var s := Exec(s0, evs, cfg);
            && (forall t :: Abandoned(s, t) ==> OnlyHelperReleases(s, t, cfg))
            && (forall t :: t in s.tickets && !s.tickets[t].orphan ==> t.req in s.reqs && s.reqs[t.req].phase != Finished)
            && ((forall r :: r in s.reqs ==> s.reqs[r].phase == Finished) && (forall t :: t in s.tickets ==> !s.tickets[t].orphan)
                ==> s.tickets == map[])
  {
    LocksReachable(s0, evs, cfg);
    var s := Exec(s0, evs, cfg);
    forall t | Abandoned(s, t) ensures OnlyHelperReleases(s, t, cfg) { HelperReleases(s, t, cfg); }
    forall t | t in s.tickets && !s.tickets[t].orphan ensures t.req in s.reqs && s.reqs[t.req].phase != Finished {
      assert Shape(s, t) && TicketsOf(s.tickets, t.req, s.reqs[t.req]);
    }
  }

  // ---------------------------------------------------------------------------------------------
  // The kills
  // ---------------------------------------------------------------------------------------------

  /** A kill that the handler may run. */
  predicate Licensed(filter: string, apply: bool, v: Visit, cfg: D.Settings) {
    ShouldKill(filter, apply, v, cfg) && (filter == "" || filter == v.broker.key)
  }

  predicate FailedAt(l: Logged) {
    l.n < |Effects(l.v)| && K.Failed(Effects(l.v)[l.n])
  }

  /** All earlier effects of the same kill are in the log before it. */
  ghost predicate Preceded(log: seq<Logged>, l: Logged) {
    forall m: nat :: m < l.n ==> l.(n := m) in log
  }

  ghost predicate LogInv(s0: State, log: seq<Logged>, cfg: D.Settings) {
    && (forall i :: 0 <= i < |log| ==>
          && Licensed(log[i].filter, log[i].apply, log[i].v, cfg) && log[i].n < |Effects(log[i].v)|
          && !IsQuarantined(s0.quarantine, log[i].v.broker.key) && Preceded(log[..i], log[i]))
    && (forall i, j :: 0 <= i < j < |log| && FailedAt(log[i]) ==> log[j].v.broker.key != log[i].v.broker.key)
  }

  ghost predicate RunInv(s: State, r: nat, cfg: D.Settings) {
    r in s.reqs ==>
      var q := s.reqs[r];
      match q.phase
      case Killing(v, n, _) =>
        && Licensed(q.filter, q.apply, v, cfg) && !IsQuarantined(s.quarantine, v.broker.key) && n <= |Effects(v)|
        && Preceded(s.log, Logged(r, q.visit, q.filter, q.apply, v, n))
      case Quarantining(v, _) => Licensed(q.filter, q.apply, v, cfg) && !IsQuarantined(s.quarantine, v.broker.key)
      case _ => true
  }

  /** After a failed check the key is quarantined, or its request is on the way to it. */
  predicate Pending(s: State, l: Logged) {
    || IsQuarantined(s.quarantine, l.v.broker.key)
    || (l.req in s.reqs
        && match s.reqs[l.req].phase
           case Killing(v, n, _) => v == l.v && n == |Effects(v)|
           case Quarantining(v, _) => v == l.v
           case _ => false)
  }

  ghost predicate KillInv(s0: State, s: State, cfg: D.Settings) {
    && LockInv(s) && LogInv(s0, s.log, cfg)
    && (forall r :: RunInv(s, r, cfg))
    && (forall i :: 0 <= i < |s.log| && FailedAt(s.log[i]) ==> Pending(s, s.log[i]))
    && (forall k :: IsQuarantined(s0.quarantine, k) ==> IsQuarantined(s.quarantine, k))
  }

  /** Two requests never work on one broker at a time. */
  lemma OneKillerPerKey(s: State, a: nat, b: nat, va: Visit, vb: Visit, cfg: D.Settings)
    requires LockInv(s) && a in s.reqs && b in s.reqs && Inside(s.reqs[a].phase) && Inside(s.reqs[b].phase)
    requires Licensed(s.reqs[a].filter, s.reqs[a].apply, va, cfg) && Licensed(s.reqs[b].filter, s.reqs[b].apply, vb, cfg)
    requires va.broker.key == vb.broker.key
    ensures a == b
  {
    if a != b { Excluded(s, a, b); }
  }

  lemma LogNext(s0: State, s: State, r: nat, cfg: D.Settings)
    requires KillInv(s0, s, cfg) && r in s.reqs && s.reqs[r].phase.Killing? && s.reqs[r].phase.next < |Effects(s.reqs[r].phase.v)|
    ensures LogInv(s0, StepGo(s, r, [], cfg).log, cfg)
  {
    var q := s.reqs[r];
    var l := Logged(r, q.visit, q.filter, q.apply, q.phase.v, q.phase.next);
    var log := s.log + [l];
    assert RunInv(s, r, cfg);
    forall i | 0 <= i < |log| ensures Preceded(log[..i], log[i]) {
      assert log[..i] == s.log[..i];
      if i == |s.log| { assert s.log[..i] == s.log; }
    }
    forall i | 0 <= i < |s.log| && FailedAt(s.log[i]) ensures l.v.broker.key != s.log[i].v.broker.key {
      var f := s.log[i];
      assert Pending(s, f);
      if l.v.broker.key == f.v.broker.key {
        assert RunInv(s, f.req, cfg);
        OneKillerPerKey(s, r, f.req, l.v, f.v, cfg);
        assert false;
      }
    }
  }

  /** A step that neither adds an effect nor touches the quarantine. */
  lemma KillSame(s0: State, s: State, s': State, r: nat, cfg: D.Settings)
    requires KillInv(s0, s, cfg) && LockInv(s') && s'.log == s.log && s'.quarantine == s.quarantine
    requires r in s.reqs && s'.reqs.Keys == s.reqs.Keys && (forall j :: j in s.reqs && j != r ==> s'.reqs[j] == s.reqs[j])
    requires RunInv(s', r, cfg)
    requires forall i :: 0 <= i < |s.log| && FailedAt(s.log[i]) && s.log[i].req == r ==> Pending(s', s.log[i])
    ensures KillInv(s0, s', cfg)
  {
    forall j ensures RunInv(s', j, cfg) { assert RunInv(s, j, cfg); }
    forall i | 0 <= i < |s.log| && FailedAt(s.log[i]) ensures Pending(s', s.log[i]) { assert Pending(s, s.log[i]); }
  }

  /** A longer log and the same quarantine keep what another request relies on. */
  lemma RunLater(s: State, s': State, j: nat, cfg: D.Settings)
    requires RunInv(s, j, cfg) && s.log <= s'.log && s'.quarantine == s.quarantine
    requires (j in s.reqs <==> j in s'.reqs) && (j in s.reqs ==> s'.reqs[j] == s.reqs[j])
    ensures RunInv(s', j, cfg)
  {
    if j in s.reqs && s.reqs[j].phase.Killing? {
      var q := s.reqs[j];
      var l := Logged(j, q.visit, q.filter, q.apply, q.phase.v, q.phase.next);
      assert Preceded(s.log, l);
      forall m: nat | m < l.n ensures l.(n := m) in s'.log { assert l.(n := m) in s.log; }
    }
  }

  lemma RunLogged(s: State, r: nat, cfg: D.Settings)
    requires RunInv(s, r, cfg) && r in s.reqs && s.reqs[r].phase.Killing? && s.reqs[r].phase.next < |Effects(s.reqs[r].phase.v)|
    ensures RunInv(StepGo(s, r, [], cfg), r, cfg)
  {
    var q, s' := s.reqs[r], StepGo(s, r, [], cfg);
    var l := Logged(r, q.visit, q.filter, q.apply, q.phase.v, q.phase.next);
    assert s'.log == s.log + [l] && s'.reqs[r] == q.(phase := Killing(q.phase.v, l.n + 1, q.phase.todo));
    forall m: nat | m < l.n + 1 ensures l.(n := m) in s'.log {
      if m < l.n { assert l.(n := m) in s.log; } else { assert s'.log[|s.log|] == l; }
    }
    assert forall m: nat :: l.(n := l.n + 1).(n := m) == l.(n := m);
  }

  /** A failure that waits for its request cannot be the current request's: that one is not at its end. */
  lemma PendingLater(s: State, s': State, r: nat, l: Logged)
    requires Pending(s, l) && r in s.reqs && s.reqs[r].phase.Killing? && s.reqs[r].phase.next < |Effects(s.reqs[r].phase.v)|
    requires r in s'.reqs && s'.reqs == s.reqs[r := s'.reqs[r]] && s'.quarantine == s.quarantine
    ensures Pending(s', l)
  {
  }

  lemma KillEffect(s0: State, s: State, r: nat, cfg: D.Settings)
    requires KillInv(s0, s, cfg) && r in s.reqs && s.reqs[r].phase.Killing? && s.reqs[r].phase.next < |Effects(s.reqs[r].phase.v)|
    ensures KillInv(s0, StepGo(s, r, [], cfg), cfg)
  {
    var s', q := StepGo(s, r, [], cfg), s.reqs[r];
    var l := Logged(r, q.visit, q.filter, q.apply, q.phase.v, q.phase.next);
    EffectFacts(s, r, cfg);
    LockGo(s, r, [], cfg);
    LogNext(s0, s, r, cfg);
    assert RunInv(s, r, cfg);
    RunLogged(s, r, cfg);
    hide StepGo, LogInv, RunInv, LockInv, KillInv;
    KillLogged(s0, s, s', r, l, cfg);
  }

  lemma EffectFacts(s: State, r: nat, cfg: D.Settings)
    requires r in s.reqs && s.reqs[r].phase.Killing? && s.reqs[r].phase.next < |Effects(s.reqs[r].phase.v)|
    ensures var q, s' := s.reqs[r], StepGo(s, r, [], cfg);
            && s'.log == s.log + [Logged(r, q.visit, q.filter, q.apply, q.phase.v, q.phase.next)]
            && s'.quarantine == s.quarantine && r in s'.reqs && s'.reqs == s.reqs[r := s'.reqs[r]]
            && s'.reqs[r].phase == Killing(q.phase.v, q.phase.next + 1, q.phase.todo)
  {
  }

  lemma KillLogged(s0: State, s: State, s': State, r: nat, l: Logged, cfg: D.Settings)
    requires KillInv(s0, s, cfg) && r in s.reqs && s.reqs[r].phase.Killing? && s.reqs[r].phase.next < |Effects(s.reqs[r].phase.v)|
    requires l.req == r && s'.log == s.log + [l] && s'.quarantine == s.quarantine
    requires r in s'.reqs && s'.reqs == s.reqs[r := s'.reqs[r]]
    requires s'.reqs[r].phase.Killing? && s'.reqs[r].phase.v == l.v && s'.reqs[r].phase.next == l.n + 1
    requires LockInv(s') && LogInv(s0, s'.log, cfg) && RunInv(s', r, cfg)
    ensures KillInv(s0, s', cfg)
  {
    forall j ensures RunInv(s', j, cfg) {
      assert RunInv(s, j, cfg);
      if j != r { RunLater(s, s', j, cfg); }
    }
    forall i | 0 <= i < |s'.log| && FailedAt(s'.log[i]) ensures Pending(s', s'.log[i]) {
      if i < |s.log| {
        assert s'.log[i] == s.log[i] && Pending(s, s.log[i]);
        PendingLater(s, s', r, s.log[i]);
      } else {
        FailureIsLast(l);
      }
    }
  }

  lemma FailureIsLast(l: Logged)
    requires FailedAt(l)
    ensures l.n + 1 == |Effects(l.v)|
  {
    K.EverySignalIsGuarded(l.v.target, l.v.wiring, l.v.answers);
  }

  /** The end of a kill: on to the quarantine after a mismatch, else to the next record. */
  lemma EndFacts(s: State, r: nat, cfg: D.Settings)
    requires RunInv(s, r, cfg) && r in s.reqs && s.reqs[r].phase.Killing? && s.reqs[r].phase.next >= |Effects(s.reqs[r].phase.v)|
    ensures var s', v := StepGo(s, r, [], cfg), s.reqs[r].phase.v;
            && s'.log == s.log && s'.quarantine == s.quarantine && r in s'.reqs && s'.reqs == s.reqs[r := s'.reqs[r]]
            && RunInv(s', r, cfg)
            && (K.Mismatches(v.target, v.wiring, v.answers) ==>
                  s'.reqs[r].phase == Quarantining(v, s.reqs[r].phase.todo))
  {
  }

  lemma EndKeepsPending(s: State, s': State, r: nat, l: Logged)
    requires Pending(s, l) && FailedAt(l) && l.req == r && r in s.reqs && s.reqs[r].phase.Killing?
    requires s'.quarantine == s.quarantine && r in s'.reqs
    requires var v := s.reqs[r].phase.v;
             K.Mismatches(v.target, v.wiring, v.answers) ==> s'.reqs[r].phase == Quarantining(v, s.reqs[r].phase.todo)
    ensures Pending(s', l)
  {
    if !IsQuarantined(s.quarantine, l.v.broker.key) {
      K.EverySignalIsGuarded(l.v.target, l.v.wiring, l.v.answers);
      assert Effects(l.v)[l.n] in Effects(l.v);
    }
  }

  lemma KillEnds(s0: State, s: State, r: nat, cfg: D.Settings)
    requires KillInv(s0, s, cfg) && r in s.reqs && s.reqs[r].phase.Killing? && s.reqs[r].phase.next >= |Effects(s.reqs[r].phase.v)|
    ensures KillInv(s0, StepGo(s, r, [], cfg), cfg)
  {
    LockGo(s, r, [], cfg);
    assert RunInv(s, r, cfg);
    EndFacts(s, r, cfg);
    KillEnded(s0, s, StepGo(s, r, [], cfg), r, cfg);
  }

  lemma KillEnded(s0: State, s: State, s': State, r: nat, cfg: D.Settings)
    requires KillInv(s0, s, cfg) && r in s.reqs && s.reqs[r].phase.Killing?
    requires LockInv(s') && s'.log == s.log && s'.quarantine == s.quarantine && RunInv(s', r, cfg)
    requires r in s'.reqs && s'.reqs == s.reqs[r := s'.reqs[r]]
    requires var v := s.reqs[r].phase.v;
             K.Mismatches(v.target, v.wiring, v.answers) ==> s'.reqs[r].phase == Quarantining(v, s.reqs[r].phase.todo)
    ensures KillInv(s0, s', cfg)
  {
    forall i | 0 <= i < |s.log| && FailedAt(s.log[i]) && s.log[i].req == r ensures Pending(s', s.log[i]) {
      EndKeepsPending(s, s', r, s.log[i]);
    }
    KillSame(s0, s, s', r, cfg);
  }

  lemma KillQuarantines(s0: State, s: State, r: nat, cfg: D.Settings)
    requires KillInv(s0, s, cfg) && r in s.reqs && s.reqs[r].phase.Quarantining?
    ensures KillInv(s0, StepGo(s, r, [], cfg), cfg)
  {
    LockGo(s, r, [], cfg);
    QuarantineFacts(s, r, cfg);
    KillQuarantined(s0, s, StepGo(s, r, [], cfg), r, s.reqs[r].phase.v, cfg);
  }

  lemma QuarantineFacts(s: State, r: nat, cfg: D.Settings)
    requires r in s.reqs && s.reqs[r].phase.Quarantining?
    ensures var s', v := StepGo(s, r, [], cfg), s.reqs[r].phase.v;
            && s'.log == s.log && r in s'.reqs && s'.reqs == s.reqs[r := s'.reqs[r]] && s'.reqs[r].phase.Scanning?
            && forall k :: IsQuarantined(s'.quarantine, k) <==> IsQuarantined(s.quarantine, k) || k == v.broker.key
  {
    var v := s.reqs[r].phase.v;
    AddedQuarantines(s.quarantine, Entry(v.broker.key, v.target.pid, v.target.lstart, 0));
  }

  lemma KillQuarantined(s0: State, s: State, s': State, r: nat, v: Visit, cfg: D.Settings)
    requires KillInv(s0, s, cfg) && r in s.reqs && s.reqs[r].phase.Quarantining? && v == s.reqs[r].phase.v
    requires LockInv(s') && s'.log == s.log && r in s'.reqs && s'.reqs == s.reqs[r := s'.reqs[r]] && s'.reqs[r].phase.Scanning?
    requires forall k :: IsQuarantined(s'.quarantine, k) <==> IsQuarantined(s.quarantine, k) || k == v.broker.key
    ensures KillInv(s0, s', cfg)
  {
    assert RunInv(s, r, cfg);
    forall j ensures RunInv(s', j, cfg) {
      assert RunInv(s, j, cfg);
      if j in s.reqs && j != r && InKill(s.reqs[j].phase) && s.reqs[j].phase.v.broker.key == v.broker.key {
        OneKillerPerKey(s, j, r, s.reqs[j].phase.v, v, cfg);
      }
    }
    forall i | 0 <= i < |s.log| && FailedAt(s.log[i]) ensures Pending(s', s.log[i]) { assert Pending(s, s.log[i]); }
  }

  predicate InKill(p: Phase) { p.Killing? || p.Quarantining? }

  lemma ScanLicenses(s: State, r: nat, visits: seq<Visit>, cfg: D.Settings)
    requires r in s.reqs && !InKill(s.reqs[r].phase)
    ensures var s' := StepGo(s, r, visits, cfg); RunInv(s', r, cfg) && s'.log == s.log && s'.quarantine == s.quarantine
    ensures StepGo(s, r, visits, cfg).reqs == s.reqs[r := StepGo(s, r, visits, cfg).reqs[r]]
  {
    var q := s.reqs[r];
    if q.phase.Scanning? && q.phase.todo != [] {
      var s' := StepGo(s, r, visits, cfg);
      if s'.reqs[r].phase.Killing? { assert Licensed(q.filter, q.apply, q.phase.todo[0], cfg); }
    }
  }

  lemma ScanKeepsPending(s: State, s': State, l: Logged)
    requires Pending(s, l) && (l.req in s.reqs ==> !InKill(s.reqs[l.req].phase)) && s'.quarantine == s.quarantine
    ensures Pending(s', l)
  {
  }

  lemma KillScans(s0: State, s: State, r: nat, visits: seq<Visit>, cfg: D.Settings)
    requires KillInv(s0, s, cfg) && Enabled(s, Go(r, visits)) && !InKill(s.reqs[r].phase)
    ensures KillInv(s0, StepGo(s, r, visits, cfg), cfg)
  {
    LockGo(s, r, visits, cfg);
    ScanLicenses(s, r, visits, cfg);
    KillScanned(s0, s, StepGo(s, r, visits, cfg), r, cfg);
  }

  lemma KillScanned(s0: State, s: State, s': State, r: nat, cfg: D.Settings)
    requires KillInv(s0, s, cfg) && r in s.reqs && !InKill(s.reqs[r].phase)
    requires LockInv(s') && RunInv(s', r, cfg) && s'.log == s.log && s'.quarantine == s.quarantine
    requires r in s'.reqs && s'.reqs == s.reqs[r := s'.reqs[r]]
    ensures KillInv(s0, s', cfg)
  {
    forall i | 0 <= i < |s.log| && FailedAt(s.log[i]) && s.log[i].req == r ensures Pending(s', s.log[i]) {
      assert Pending(s, s.log[i]);
      ScanKeepsPending(s, s', s.log[i]);
    }
    KillSame(s0, s, s', r, cfg);
  }

  lemma KillGo(s0: State, s: State, r: nat, visits: seq<Visit>, cfg: D.Settings)
    requires KillInv(s0, s, cfg) && Enabled(s, Go(r, visits))
    ensures KillInv(s0, StepGo(s, r, visits, cfg), cfg)
  {
    var q := s.reqs[r];
    if q.phase.Killing? {
      if q.phase.next < |Effects(q.phase.v)| { KillEffect(s0, s, r, cfg); } else { KillEnds(s0, s, r, cfg); }
    } else if q.phase.Quarantining? {
      KillQuarantines(s0, s, r, cfg);
    } else {
      KillScans(s0, s, r, visits, cfg);
    }
  }

  /** Nobody who is in the middle of a kill is touched, and nobody else starts one. */
  ghost predicate SameKillers(s: State, s': State) {
    && s'.log == s.log && s'.quarantine == s.quarantine
    && (forall j :: j in s.reqs && InKill(s.reqs[j].phase) ==> j in s'.reqs && s'.reqs[j] == s.reqs[j])
    && (forall j :: j in s'.reqs && InKill(s'.reqs[j].phase) ==> j in s.reqs && s'.reqs[j] == s.reqs[j])
  }

  lemma KillUntouched(s0: State, s: State, s': State, cfg: D.Settings)
    requires KillInv(s0, s, cfg) && LockInv(s') && SameKillers(s, s')
    ensures KillInv(s0, s', cfg)
  {
    forall j ensures RunInv(s', j, cfg) { assert RunInv(s, j, cfg); }
    forall i | 0 <= i < |s'.log| && FailedAt(s'.log[i]) ensures Pending(s', s'.log[i]) { assert Pending(s, s.log[i]); }
  }

  lemma OtherIsHarmless(s: State, e: Event, cfg: D.Settings)
    requires Enabled(s, e) && !e.Go?
    ensures SameKillers(s, Step(s, e, cfg))
  {
  }

  lemma KillOther(s0: State, s: State, e: Event, cfg: D.Settings)
    requires KillInv(s0, s, cfg) && Enabled(s, e) && !e.Go?
    ensures KillInv(s0, Step(s, e, cfg), cfg)
  {
    LockStep(s, e, cfg);
    OtherIsHarmless(s, e, cfg);
    KillUntouched(s0, s, Step(s, e, cfg), cfg);
  }

  lemma {:induction false} KillsReachable(s0: State, evs: seq<Event>, cfg: D.Settings)
    requires Initial(s0)
    ensures KillInv(s0, Exec(s0, evs, cfg), cfg)
  {
    if evs != [] {
      KillsReachable(s0, evs[..|evs| - 1], cfg);
      var s, e := Exec(s0, evs[..|evs| - 1], cfg), evs[|evs| - 1];
      if Enabled(s, e) {
        if e.Go? { KillGo(s0, s, e.r, e.visits, cfg); } else { KillOther(s0, s, e, cfg); }
      }
    }
  }

  /** Event `m` of the run is the one that did effect `i`. */
  predicate LoggedBy(s0: State, evs: seq<Event>, cfg: D.Settings, i: nat, m: nat) {
    m < |evs| && |Exec(s0, evs[..m], cfg).log| == i && |Exec(s0, evs[..m + 1], cfg).log| == i + 1
  }

  lemma LogGrows(s0: State, s: State, e: Event, cfg: D.Settings)
    requires KillInv(s0, s, cfg) && Enabled(s, e)
    ensures var s' := Step(s, e, cfg);
            s'.log == s.log
            || (|s'.log| == |s.log| + 1 && s.log == s'.log[..|s.log|]
                && !IsQuarantined(s.quarantine, s'.log[|s.log|].v.broker.key))
  {
    if e.Go? { assert RunInv(s, e.r, cfg); }
  }

  /** The broker was not in quarantine when the effect was done. */
  lemma {:induction false} LoggedUnquarantined(s0: State, evs: seq<Event>, cfg: D.Settings, i: nat) returns (m: nat)
    requires Initial(s0) && i < |Exec(s0, evs, cfg).log|
    ensures LoggedBy(s0, evs, cfg, i, m)
    ensures !IsQuarantined(Exec(s0, evs[..m], cfg).quarantine, Exec(s0, evs, cfg).log[i].v.broker.key)
  {
    var front, e := evs[..|evs| - 1], evs[|evs| - 1];
    var s := Exec(s0, front, cfg);
    KillsReachable(s0, front, cfg);
    if Enabled(s, e) { LogGrows(s0, s, e, cfg); }
    if i < |s.log| {
      m := LoggedUnquarantined(s0, front, cfg, i);
      assert front[..m] == evs[..m] && front[..m + 1] == evs[..m + 1];
    } else {
      m := |evs| - 1;
      assert evs[..m + 1] == evs;
    }
  }

  /**
   * Whole-run kill safety.  In every interleaving and for every behaviour of the outside world, a signal
   * was sent by an apply request whose filter does not exclude the broker, on a verdict that found no
   * active work, no recent delivery, no live owner and an expired idle time; never to a foreign broker by
   * an unfiltered request; never to a key that was in quarantine then or at the start; and only after, in
   * this order, the same kill had committed its preimage, passed an identity check as its last check but for
   * the group lookup, and found a group above 1.
   */
  lemma WholeRunKillSafety(s0: State, evs: seq<Event>, cfg: D.Settings, i: nat)
    requires Initial(s0) && i < |Exec(s0, evs, cfg).log|
    requires var l := Exec(s0, evs, cfg).log[i]; l.n < |Effects(l.v)| && Effects(l.v)[l.n].Signalled?
    ensures var log := Exec(s0, evs, cfg).log;
            var l, es := log[i], Effects(log[i].v);
            && l.apply && (l.filter == "" || l.filter == l.v.broker.key)
            && !D.ActiveWork(l.v.broker, l.v.world) && !D.RecentDelivery(l.v.broker, l.v.world, D.ResultWindow(cfg))
            && !D.LiveOwner(l.v.broker, l.v.world) && D.IdleExpired(l.v.broker, l.v.world.now, cfg)
            && (l.filter == "" ==> !D.Foreign(l.v.broker, l.v.world))
            && !IsQuarantined(s0.quarantine, l.v.broker.key)
            && (exists m: nat :: LoggedBy(s0, evs, cfg, i, m) && !IsQuarantined(Exec(s0, evs[..m], cfg).quarantine, l.v.broker.key))
            && l.n > 1 && es[1] == K.Preimage(true) && l.(n := 1) in log[..i]
            && K.GuardedAt(l.v.target, es, l.n) && l.(n := l.n - 2) in log[..i] && l.(n := l.n - 1) in log[..i]
  {
    KillsReachable(s0, evs, cfg);
    var m := LoggedUnquarantined(s0, evs, cfg, i);
    var l := Exec(s0, evs, cfg).log[i];
    K.EverySignalIsGuarded(l.v.target, l.v.wiring, l.v.answers);
    assert Preceded(Exec(s0, evs, cfg).log[..i], l);
  }

  /** After a failed identity check nothing is ever done to that broker key again. */
  lemma NothingAfterMismatch(s0: State, evs: seq<Event>, cfg: D.Settings, i: nat, j: nat)
    requires Initial(s0) && i < j < |Exec(s0, evs, cfg).log| && FailedAt(Exec(s0, evs, cfg).log[i])
    ensures Exec(s0, evs, cfg).log[j].v.broker.key != Exec(s0, evs, cfg).log[i].v.broker.key
  {
    KillsReachable(s0, evs, cfg);
  }
}
