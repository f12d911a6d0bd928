/**
 * The codex screen-change detector: callbacks that run on the watcher's goroutine, the detector's own
 * goroutine, and the dispatcher that closes the signal channel as soon as the detector returns.
 *
 * The callback's send races the close.  A mutex and a `closed` flag settle it.  Each step below is one
 * atomic action of one goroutine; any number of callbacks may be in flight, and the context may be
 * cancelled at any time.
 */
module Detector {
  import opened Prober

  /** Where a ScreenChanged callback stands. */
  datatype CallbackAt =
    | CheckArmed | OuterAlive | AwaitLock
    | CheckClosed | CheckEmitted | InnerAlive | Select | StoreEmitted | CloseEmittedCh | Unlocking
    | Finished

  datatype MainAt = Waiting | Teardown | MainAwaitLock | SetClosed | MainUnlock | Returned

  datatype Holder = Nobody | Main | Callback(k: nat)

  datatype Obs = Stable | Passed(k: nat) | Sent(k: nat)

  /**
   * The flags and channels the goroutines share.  `panicked` records a send on, or a second close of,
   * a closed channel; `sent` counts the signals sent.
   */
  datatype Shared = Shared(armed: bool, emitted: bool, closed: bool, emittedCh: bool, outClosed: bool, ctxDone: bool,
                           sent: nat, panicked: bool)

  /** The prober's side: the detector's own handle, and the registry it shares with everybody else. */
  datatype Watches = Watches(mine: Handle, reg: Registry)

  datatype State = State(sh: Shared, holder: Holder, main: MainAt, callbacks: map<nat, CallbackAt>, log: seq<Obs>,
                         w: Watches)

  datatype Event =
    | Fire(k: nat, kind: Kind)                   // the watcher invokes the callback
    | Run(k: nat, alive: bool, sends: bool)      // one action of callback k
    | RunMain
    | CloseOut                                   // the dispatcher closes the signal channel
    | Cancel
    | OtherWatch(t: string)                      // another Watch call: cancels the target's watch, installs its own
    | OtherStop(t: string)

  ghost predicate Initial(s: State) {
    && s.sh == Shared(false, false, false, false, false, false, 0, false)
    && s.holder == Nobody && s.main == Waiting && s.callbacks == map[] && s.log == []
    && Sound(s.w.reg) && Owns(s.w.reg, s.w.mine)
  }

  predicate Enabled(s: State, e: Event) {
    match e
    case Fire(k, _) => k !in s.callbacks
    case Run(k, _, sends) =>
      && k in s.callbacks && s.callbacks[k] != Finished
      && (s.callbacks[k] == AwaitLock ==> s.holder == Nobody)
      && (s.callbacks[k] == Select && !sends ==> s.sh.ctxDone)
    case RunMain =>
      && s.main != Returned
      && (s.main == Waiting ==> s.sh.emittedCh || s.sh.ctxDone)
      && (s.main == MainAwaitLock ==> s.holder == Nobody)
    case CloseOut => s.main == Returned && !s.sh.outClosed
    case _ => true
  }

  /** Where a callback goes next. */
  function Next(pc: CallbackAt, sh: Shared, alive: bool, sends: bool): CallbackAt {
    match pc
    case CheckArmed => if sh.armed then OuterAlive else Finished
    case OuterAlive => if alive then AwaitLock else Finished
    case AwaitLock => CheckClosed
    case CheckClosed => if sh.closed then Unlocking else CheckEmitted
    case CheckEmitted => if sh.emitted then Unlocking else InnerAlive
    case InnerAlive => if alive then Select else Unlocking
    case Select => if sends then StoreEmitted else Unlocking
    case StoreEmitted => CloseEmittedCh
    case CloseEmittedCh => Unlocking
    case _ => Finished
  }

  /** What it does to the shared flags and channels. */
  function Touch(pc: CallbackAt, sh: Shared, sends: bool): Shared {
    if pc == Select && sends then sh.(sent := sh.sent + 1, panicked := sh.panicked || sh.outClosed)
    else if pc == StoreEmitted then sh.(emitted := true)
    else if pc == CloseEmittedCh then sh.(emittedCh := true, panicked := sh.panicked || sh.emittedCh)
    else sh
  }

  /** What can be observed of it. */
  function Notes(pc: CallbackAt, k: nat, alive: bool, sends: bool): seq<Obs> {
    if (pc == OuterAlive || pc == InnerAlive) && alive then [Passed(k)]
    else if pc == Select && sends then [Sent(k)]
    else []
  }

  function StepCallback(s: State, k: nat, alive: bool, sends: bool): State
    requires k in s.callbacks
  {
    var pc := s.callbacks[k];
    State(Touch(pc, s.sh, sends),
          if pc == AwaitLock then Callback(k) else if pc == Unlocking then Nobody else s.holder,
          s.main, s.callbacks[k := Next(pc, s.sh, alive, sends)], s.log + Notes(pc, k, alive, sends), s.w)
  }

  function StepMain(s: State): State {
    match s.main
    case Waiting => s.(main := Teardown)
    case Teardown => s.(main := MainAwaitLock, w := s.w.(reg := StoppedOwned(s.w.reg, s.w.mine)))
    case MainAwaitLock => s.(main := SetClosed, holder := Main)
    case SetClosed => s.(main := MainUnlock, sh := s.sh.(closed := true))
    case MainUnlock => s.(main := Returned, holder := Nobody)
    case Returned => s
  }

  function Step(s: State, e: Event): State
    requires Enabled(s, e)
  {
    match e
    case Fire(k, kind) =>
      if kind == ScreenStable then s.(sh := s.sh.(armed := true), log := s.log + [Stable])
      else s.(callbacks := s.callbacks[k := CheckArmed])
    case Run(k, alive, sends) => StepCallback(s, k, alive, sends)
    case RunMain => StepMain(s)
    case CloseOut => s.(sh := s.sh.(outClosed := true, panicked := s.sh.panicked || s.sh.outClosed))
    case Cancel => s.(sh := s.sh.(ctxDone := true))
    case OtherWatch(t) => s.(w := s.w.(reg := Started(s.w.reg, t)))
    case OtherStop(t) => s.(w := s.w.(reg := Stopped(s.w.reg, t)))
  }

  /** Events that are not enabled when their turn comes have no effect. */
  function Exec(s0: State, evs: seq<Event>): State {
    if evs == [] then s0
    else
      var s, e := Exec(s0, evs[..|evs| - 1]), evs[|evs| - 1];
      if Enabled(s, e) then Step(s, e) else s
  }

  // ---------------------------------------------------------------------------------------------
  // Who may be where
  // ---------------------------------------------------------------------------------------------

  predicate Critical(pc: CallbackAt) {
    pc.CheckClosed? || pc.Unlocking? || Open(pc)
  }

  /** Past the check of `closed`, still holding the mutex. */
  predicate Open(pc: CallbackAt) {
    pc.CheckEmitted? || Unsent(pc) || pc.StoreEmitted? || pc.CloseEmittedCh?
  }

  /** Past the check of `emitted`, not yet sent. */
  predicate Unsent(pc: CallbackAt) {
    pc.InnerAlive? || pc.Select?
  }

  ghost predicate CallbackInv(sh: Shared, holder: Holder, k: nat, pc: CallbackAt) {
    && (Critical(pc) <==> holder == Callback(k))
    && (!pc.CheckArmed? && !pc.Finished? ==> sh.armed)
    && (Open(pc) ==> !sh.closed)
    && (Unsent(pc) ==> !sh.emitted && sh.sent == 0)
    && (Unsent(pc) || pc.StoreEmitted? || pc.CloseEmittedCh? ==> !sh.emittedCh)
    && (pc.StoreEmitted? ==> sh.sent == 1)
    && (pc.CloseEmittedCh? ==> sh.emitted)
  }

  ghost predicate SharedInv(sh: Shared, main: MainAt) {
    && (main.MainUnlock? || main.Returned? <==> sh.closed)
    && (sh.outClosed ==> main.Returned?)
    && (!main.Waiting? ==> sh.emittedCh || sh.ctxDone)
    && (sh.emittedCh ==> sh.emitted) && (sh.emitted ==> sh.sent == 1) && sh.sent <= 1
    && !sh.panicked
  }

  ghost predicate Inv(s: State) {
    && SharedInv(s.sh, s.main)
    && (s.holder.Callback? ==> s.holder.k in s.callbacks && Critical(s.callbacks[s.holder.k]))
    && (s.holder == Main <==> s.main.SetClosed? || s.main.MainUnlock?)
    && (s.sh.sent == 1 ==> s.sh.emitted || (s.holder.Callback? && s.callbacks[s.holder.k].StoreEmitted?))
    && (forall k :: k in s.callbacks ==> CallbackInv(s.sh, s.holder, k, s.callbacks[k]))
  }

  lemma InvCallback(s: State, k: nat, alive: bool, sends: bool)
    requires Inv(s) && Enabled(s, Run(k, alive, sends))
    ensures Inv(Step(s, Run(k, alive, sends)))
  {
    var s' := StepCallback(s, k, alive, sends);
    assert CallbackInv(s.sh, s.holder, k, s.callbacks[k]);
    forall j | j in s'.callbacks ensures CallbackInv(s'.sh, s'.holder, j, s'.callbacks[j]) {
      assert CallbackInv(s.sh, s.holder, j, s.callbacks[j]);
    }
  }

  lemma InvMain(s: State)
    requires Inv(s) && Enabled(s, RunMain)
    ensures Inv(Step(s, RunMain))
  {
    var s' := StepMain(s);
    forall j | j in s'.callbacks ensures CallbackInv(s'.sh, s'.holder, j, s'.callbacks[j]) {
      assert CallbackInv(s.sh, s.holder, j, s.callbacks[j]);
    }
  }

  lemma InvFire(s: State, k: nat, kind: Kind)
    requires Inv(s) && k !in s.callbacks
    ensures Inv(Step(s, Fire(k, kind)))
  {
    var s' := Step(s, Fire(k, kind));
    forall j | j in s'.callbacks ensures CallbackInv(s'.sh, s'.holder, j, s'.callbacks[j]) {
      if j in s.callbacks { assert CallbackInv(s.sh, s.holder, j, s.callbacks[j]); }
    }
  }

  lemma InvRest(s: State, e: Event)
    requires Inv(s) && Enabled(s, e) && (e.CloseOut? || e.Cancel? || e.OtherWatch? || e.OtherStop?)
    ensures Inv(Step(s, e))
  {
    var s' := Step(s, e);
    forall j | j in s'.callbacks ensures CallbackInv(s'.sh, s'.holder, j, s'.callbacks[j]) {
      assert CallbackInv(s.sh, s.holder, j, s.callbacks[j]);
    }
  }

  lemma InvStep(s: State, e: Event)
    requires Inv(s) && Enabled(s, e)
    ensures Inv(Step(s, e))
  {
    match e
    case Run(k, alive, sends) => InvCallback(s, k, alive, sends);
    case RunMain => InvMain(s);
    case Fire(k, kind) => InvFire(s, k, kind);
    case _ => InvRest(s, e);
  }

  lemma {:induction false} InvReachable(s0: State, evs: seq<Event>)
    requires Initial(s0)
    ensures Inv(Exec(s0, evs)) && Exec(s0, evs).w.mine == s0.w.mine && Registered(Exec(s0, evs).w)
  {
    if evs != [] {
      InvReachable(s0, evs[..|evs| - 1]);
      var s, e := Exec(s0, evs[..|evs| - 1]), evs[|evs| - 1];
      if Enabled(s, e) {
        InvStep(s, e);
        RegistryStep(s, e);
      }
    }
  }

  /** The detector's own watch is still installed, or it has been cancelled. */
  ghost predicate Registered(w: Watches) {
    Sound(w.reg) && w.mine.Handle? && (Owns(w.reg, w.mine) || w.mine.id in w.reg.cancelled)
  }

  lemma RegistryStep(s: State, e: Event)
    requires Enabled(s, e) && Registered(s.w)
    ensures Step(s, e).w.mine == s.w.mine && Registered(Step(s, e).w)
  {
    match e
    case RunMain => if Owns(s.w.reg, s.w.mine) { StoppedIsSound(s.w.reg, s.w.mine.target); }
    case OtherWatch(t) => StartedIsSound(s.w.reg, t);
    case OtherStop(t) => StoppedIsSound(s.w.reg, t);
    case _ =>
  }

  // ---------------------------------------------------------------------------------------------
  // What has been observed
  // ---------------------------------------------------------------------------------------------

  /** How many identity checks callback `k` has passed. */
  function Passes(log: seq<Obs>, k: nat): nat {
    if log == [] then 0 else Passes(log[..|log| - 1], k) + if log[|log| - 1] == Passed(k) then 1 else 0
  }

  function Signals(log: seq<Obs>): nat {
    if log == [] then 0 else Signals(log[..|log| - 1]) + if log[|log| - 1].Sent? then 1 else 0
  }

  /** Every signal comes after a ScreenStable and after two passed identity checks by its callback. */
  ghost predicate GoodLog(log: seq<Obs>) {
    forall i :: 0 <= i < |log| && log[i].Sent? ==> Stable in log[..i] && Passes(log[..i], log[i].k) >= 2
  }

  ghost predicate Observed(s: State) {
    && (s.sh.armed <==> Stable in s.log)
    && GoodLog(s.log) && Signals(s.log) == s.sh.sent
    && forall k :: k in s.callbacks ==> Checked(s.log, k, s.callbacks[k])
  }

  /** A callback has passed as many identity checks as its place calls for. */
  predicate Checked(log: seq<Obs>, k: nat, pc: CallbackAt) {
    && (pc.AwaitLock? || Critical(pc) ==> Passes(log, k) >= 1)
    && (pc.Select? ==> Passes(log, k) >= 2)
  }

  lemma Append(log: seq<Obs>, o: Obs)
    ensures Signals(log + [o]) == Signals(log) + if o.Sent? then 1 else 0
    ensures forall k :: Passes(log + [o], k) == Passes(log, k) + if o == Passed(k) then 1 else 0
    ensures GoodLog(log) && (o.Sent? ==> Stable in log && Passes(log, o.k) >= 2) ==> GoodLog(log + [o])
    ensures Stable in log + [o] <==> Stable in log || o == Stable
  {
    var next := log + [o];
    assert next[..|next| - 1] == log;
    assert forall i :: 0 <= i <= |log| ==> next[..i] == log[..i];
  }

  /** What a callback's next place requires of the log it leaves behind. */
  lemma PassesAfter(log: seq<Obs>, sh: Shared, k: nat, pc: CallbackAt, alive: bool, sends: bool)
    requires Checked(log, k, pc)
    ensures var next, log' := Next(pc, sh, alive, sends), log + Notes(pc, k, alive, sends);
            && Checked(log', k, next)
            && Signals(log') == Signals(log) + (if pc.Select? && sends then 1 else 0)
            && (Stable in log' <==> Stable in log)
            && (forall j :: Passes(log', j) >= Passes(log, j))
            && (GoodLog(log) && (pc.Select? ==> Stable in log) ==> GoodLog(log'))
  {
    var notes := Notes(pc, k, alive, sends);
    if notes == [] {
      assert log + notes == log;
    } else {
      assert notes == [notes[0]];
      Append(log, notes[0]);
    }
  }

  lemma ObservedRun(s: State, k: nat, alive: bool, sends: bool)
    requires Inv(s) && Observed(s) && Enabled(s, Run(k, alive, sends))
    ensures Observed(StepCallback(s, k, alive, sends))
  {
    var pc := s.callbacks[k];
    var log' := s.log + Notes(pc, k, alive, sends);
    var s' := StepCallback(s, k, alive, sends);
    assert CallbackInv(s.sh, s.holder, k, pc) && Checked(s.log, k, pc);
    PassesAfter(s.log, s.sh, k, pc, alive, sends);
    TouchCounts(pc, s.sh, sends);
    forall j | j in s'.callbacks ensures Checked(s'.log, j, s'.callbacks[j]) {
      if j != k { assert Checked(s.log, j, s.callbacks[j]) && Passes(log', j) >= Passes(s.log, j); }
    }
  }

  lemma TouchCounts(pc: CallbackAt, sh: Shared, sends: bool)
    ensures Touch(pc, sh, sends).armed == sh.armed
    ensures Touch(pc, sh, sends).sent == sh.sent + if pc.Select? && sends then 1 else 0
  {
  }

  lemma ObservedStable(s: State, k: nat)
    requires Observed(s) && k !in s.callbacks
    ensures Observed(Step(s, Fire(k, ScreenStable)))
  {
    var s' := Step(s, Fire(k, ScreenStable));
    Append(s.log, Stable);
    forall j | j in s'.callbacks ensures Checked(s'.log, j, s'.callbacks[j]) { assert Checked(s.log, j, s.callbacks[j]); }
  }

  lemma ObservedOther(s: State, e: Event)
    requires Observed(s) && Enabled(s, e) && !e.Run?
    ensures Observed(Step(s, e))
  {
    if e.Fire? && e.kind == ScreenStable {
      ObservedStable(s, e.k);
    } else {
      var s' := Step(s, e);
      assert s'.log == s.log && s'.sh.armed == s.sh.armed && s'.sh.sent == s.sh.sent;
      forall j | j in s'.callbacks ensures Checked(s'.log, j, s'.callbacks[j]) {
        if j in s.callbacks { assert Checked(s.log, j, s.callbacks[j]); }
      }
    }
  }

  lemma {:induction false} ObservedReachable(s0: State, evs: seq<Event>)
    requires Initial(s0)
    ensures Observed(Exec(s0, evs))
  {
    if evs != [] {
      var s, e := Exec(s0, evs[..|evs| - 1]), evs[|evs| - 1];
      ObservedReachable(s0, evs[..|evs| - 1]);
      InvReachable(s0, evs[..|evs| - 1]);
      if Enabled(s, e) {
        if e.Run? { ObservedRun(s, e.k, e.alive, e.sends); } else { ObservedOther(s, e); }
      }
    }
  }

  // ---------------------------------------------------------------------------------------------
  // What follows
  // ---------------------------------------------------------------------------------------------

  /**
   * In every interleaving: nothing is ever sent on the closed channel and no channel is closed twice;
   * at most one signal is sent; and every signal comes after the screen was seen stable and after two
   * identity checks passed in the callback that sent it.
   */
  lemma AtMostOneSafeSignal(s0: State, evs: seq<Event>)
    requires Initial(s0)
    ensures var s := Exec(s0, evs);
            && !s.sh.panicked && Signals(s.log) <= 1
            && (forall i :: 0 <= i < |s.log| && s.log[i].Sent? ==>
                  Stable in s.log[..i] && Passes(s.log[..i], s.log[i].k) >= 2)
            && (s.sh.outClosed ==> forall k :: k in s.callbacks ==> s.callbacks[k] != Select)
  {
    InvReachable(s0, evs);
    ObservedReachable(s0, evs);
    var s := Exec(s0, evs);
    assert forall k :: k in s.callbacks ==> CallbackInv(s.sh, s.holder, k, s.callbacks[k]);
  }

  /**
   * Within `n` actions of its own callback `k` gives up the mutex, whatever the identity check answers and
   * whichever way its select goes; and it always has an action to take.
   */
  ghost predicate Releases(s: State, k: nat, n: nat)
    decreases n
  {
    s.holder != Callback(k) ||
    (n > 0
     && (exists alive, sends :: Enabled(s, Run(k, alive, sends)))
     && forall alive, sends :: Enabled(s, Run(k, alive, sends)) ==> Releases(Step(s, Run(k, alive, sends)), k, n - 1))
  }

  function Remaining(pc: CallbackAt): nat {
    match pc
    case CheckClosed => 7 case CheckEmitted => 6 case InnerAlive => 5 case Select => 4
    case StoreEmitted => 3 case CloseEmittedCh => 2 case Unlocking => 1 case _ => 0
  }

  /**
   * Once the detector's goroutine waits for the mutex, the callback that holds it can always go on to
   * release it, without any help and on every path: a blocked send has the cancelled context to fall back on.
   */
  lemma {:induction false} HolderFinishes(s: State, k: nat)
    requires Inv(s) && s.main == MainAwaitLock && s.holder == Callback(k)
    ensures k in s.callbacks && Releases(s, k, Remaining(s.callbacks[k]))
    decreases Remaining(s.callbacks[s.holder.k])
  {
    assert CallbackInv(s.sh, s.holder, k, s.callbacks[k]);
    assert Enabled(s, Run(k, false, false));
    forall alive, sends | Enabled(s, Run(k, alive, sends))
      ensures Releases(Step(s, Run(k, alive, sends)), k, Remaining(s.callbacks[k]) - 1)
    {
      InvCallback(s, k, alive, sends);
      var s' := Step(s, Run(k, alive, sends));
      if s'.holder == Callback(k) {
        HolderFinishes(s', k);
        ReleasesMore(s', k, Remaining(s'.callbacks[k]), Remaining(s.callbacks[k]) - 1);
      }
    }
  }

  lemma {:induction false} ReleasesMore(s: State, k: nat, n: nat, m: nat)
    requires Releases(s, k, n) && n <= m
    ensures Releases(s, k, m)
    decreases n
  {
    if s.holder == Callback(k) {
      forall alive, sends | Enabled(s, Run(k, alive, sends)) ensures Releases(Step(s, Run(k, alive, sends)), k, m - 1) {
        ReleasesMore(Step(s, Run(k, alive, sends)), k, n - 1, m - 1);
      }
    }
  }

  /** Nobody else can disturb the holder: the others' actions leave its place and its claim alone. */
  lemma OthersLeaveHolder(s: State, k: nat, e: Event)
    requires Inv(s) && Enabled(s, e) && s.holder == Callback(k) && !(e.Run? && e.k == k)
    ensures Step(s, e).holder == Callback(k) && k in Step(s, e).callbacks && Step(s, e).callbacks[k] == s.callbacks[k]
  {
    if e.Run? {
      assert CallbackInv(s.sh, s.holder, e.k, s.callbacks[e.k]);
      assert StepCallback(s, e.k, e.alive, e.sends).holder == s.holder;
    }
  }

  /**
   * Teardown cancels the detector's own watch if that is still the target's watch, and otherwise
   * nothing: a watch installed since then by anyone else keeps running.
   */
  lemma TeardownSparesReplacement(s0: State, evs: seq<Event>, t: string)
    requires Initial(s0) && Exec(s0, evs).main == Teardown
    ensures var r, r' := Exec(s0, evs).w.reg, Step(Exec(s0, evs), RunMain).w.reg;
            && !Owns(r', s0.w.mine) && s0.w.mine.id in r'.cancelled
            && (t in r.live && r.live[t] != s0.w.mine.id ==>
                  t in r'.live && r'.live[t] == r.live[t] && r.live[t] !in r'.cancelled)
            && (s0.w.mine.id in r.cancelled ==> r' == r)
  {
    InvReachable(s0, evs);
    var r, h := Exec(s0, evs).w.reg, s0.w.mine;
    if Owns(r, h) { OwnedIsLive(r, h); }
    if t in r.live { assert r.live[t] in r.live.Values; }
  }

  // ---------------------------------------------------------------------------------------------
  // That it does signal
  // ---------------------------------------------------------------------------------------------

  function Times(e: Event, n: nat): seq<Event> {
    if n == 0 then [] else Times(e, n - 1) + [e]
  }

  /** The screen changes, and the callback runs on its own: its checks pass, and its select sends. */
  function Solo(k: nat): seq<Event> {
    [Fire(k, ScreenChanged)] + Times(Run(k, true, true), 10)
  }

  lemma ExecConcatOne(s0: State, evs: seq<Event>, e: Event)
    ensures Exec(s0, evs + [e]) == if Enabled(Exec(s0, evs), e) then Step(Exec(s0, evs), e) else Exec(s0, evs)
  {
    assert (evs + [e])[..|evs|] == evs;
  }

  lemma ExecTimes(s0: State, evs: seq<Event>, e: Event, n: nat)
    ensures Exec(s0, evs + Times(e, 0)) == Exec(s0, evs)
    ensures var s := Exec(s0, evs + Times(e, n));
            Exec(s0, evs + Times(e, n + 1)) == if Enabled(s, e) then Step(s, e) else s
  {
    hide Enabled, Step, Exec;
    assert evs + Times(e, 0) == evs;
    assert evs + Times(e, n + 1) == evs + Times(e, n) + [e];
    ExecConcatOne(s0, evs + Times(e, n), e);
  }

  /** Nothing stands in the way of a signal. */
  predicate Unsignalled(s: State) {
    s.sh.armed && !s.sh.closed && !s.sh.emitted && !s.sh.emittedCh && !s.sh.outClosed && s.holder == Nobody
  }

  /** The state after the callback's first `n` actions. */
  function SoloState(s: State, k: nat, n: nat): State
    requires n <= 10
  {
    var places := [CheckArmed, OuterAlive, AwaitLock, CheckClosed, CheckEmitted, InnerAlive, Select, StoreEmitted,
                   CloseEmittedCh, Unlocking, Finished];
    s.(callbacks := s.callbacks[k := places[n]], holder := if 3 <= n <= 9 then Callback(k) else Nobody,
       sh := s.sh.(sent := if n >= 7 then s.sh.sent + 1 else s.sh.sent, emitted := n >= 8, emittedCh := n >= 9),
       log := s.log + (if n >= 2 then [Passed(k)] else []) + (if n >= 6 then [Passed(k)] else [])
              + (if n >= 7 then [Sent(k)] else []))
  }

  lemma SoloStep(s: State, k: nat, n: nat)
    requires Unsignalled(s) && !s.sh.panicked && n < 10
    ensures var a := SoloState(s, k, n);
            Enabled(a, Run(k, true, true)) && Step(a, Run(k, true, true)) == SoloState(s, k, n + 1)
  {
    var a, b := SoloState(s, k, n), SoloState(s, k, n + 1);
    var c := StepCallback(a, k, true, true);
    assert c.sh == b.sh && c.holder == b.holder;
    assert c.callbacks == b.callbacks;
    assert c.log == b.log;
  }

  lemma SoloStarts(s0: State, evs: seq<Event>, k: nat)
    requires Unsignalled(Exec(s0, evs)) && k !in Exec(s0, evs).callbacks
    ensures Exec(s0, evs + [Fire(k, ScreenChanged)]) == SoloState(Exec(s0, evs), k, 0)
  {
    ExecConcatOne(s0, evs, Fire(k, ScreenChanged));
    assert SoloState(Exec(s0, evs), k, 0).log == Exec(s0, evs).log;
  }

  lemma {:induction false} SoloRuns(s0: State, evs: seq<Event>, k: nat, n: nat)
    requires n <= 10 && Unsignalled(Exec(s0, evs)) && !Exec(s0, evs).sh.panicked && k !in Exec(s0, evs).callbacks
    ensures Exec(s0, evs + [Fire(k, ScreenChanged)] + Times(Run(k, true, true), n)) == SoloState(Exec(s0, evs), k, n)
  {
    hide SoloState, Step, Enabled, Unsignalled, Exec, Times;
    ExecTimes(s0, evs + [Fire(k, ScreenChanged)], Run(k, true, true), if n == 0 then 0 else n - 1);
    if n == 0 {
      SoloStarts(s0, evs, k);
    } else {
      SoloRuns(s0, evs, k, n - 1);
      SoloStep(Exec(s0, evs), k, n - 1);
    }
  }

  /**
   * In every reachable state in which the screen has been seen stable, nothing has been signalled, the
   * detector is still waiting and the mutex is free: if the screen changes and the callback's identity
   * checks pass, it sends the signal, lets go of the mutex, and lets the detector's goroutine go on.
   */
  lemma SignalsWhenClear(s0: State, evs: seq<Event>, k: nat)
    requires Initial(s0)
    requires var s := Exec(s0, evs);
             Stable in s.log && s.main == Waiting && s.holder == Nobody && Signals(s.log) == 0 && k !in s.callbacks
    ensures var s' := Exec(s0, evs + Solo(k));
            && Sent(k) in s'.log && Signals(s'.log) == 1 && !s'.sh.panicked
            && k in s'.callbacks && s'.callbacks[k] == Finished && s'.holder == Nobody
            && s'.main == Waiting && Enabled(s', RunMain)
  {
    var s := Exec(s0, evs);
    InvReachable(s0, evs);
    ObservedReachable(s0, evs);
    SoloRuns(s0, evs, k, 10);
    assert evs + Solo(k) == evs + [Fire(k, ScreenChanged)] + Times(Run(k, true, true), 10);
    ObservedReachable(s0, evs + Solo(k));
    var log := Exec(s0, evs + Solo(k)).log;
    assert log[|log| - 1] == Sent(k);
  }

  /** What one action of a callback found: the flags as it ran, and the answers it got. */
  datatype Saw = Saw(armed: bool, closed: bool, emitted: bool, alive: bool, sends: bool)

  /** What the actions of callback `k` found, in order. */
  function Found(s0: State, evs: seq<Event>, k: nat): seq<Saw> {
    if evs == [] then []
    else
      var front, e := evs[..|evs| - 1], evs[|evs| - 1];
      var s := Exec(s0, front);
      Found(s0, front, k)
      + if e.Run? && e.k == k && Enabled(s, e) then [Saw(s.sh.armed, s.sh.closed, s.sh.emitted, e.alive, e.sends)] else []
  }

  /** Armed on entry; alive; not closed, not emitted once inside; still alive; and the send chosen. */
  predicate GoesThrough(a: seq<Saw>) {
    |a| > 6 && a[0].armed && a[1].alive && !a[3].closed && !a[4].emitted && a[5].alive && a[6].sends
  }

  predicate TurnsBack(a: seq<Saw>) {
    || (|a| > 0 && !a[0].armed) || (|a| > 1 && !a[1].alive) || (|a| > 3 && a[3].closed) || (|a| > 4 && a[4].emitted)
    || (|a| > 5 && !a[5].alive) || (|a| > 6 && !a[6].sends)
  }

  function ActionsBefore(pc: CallbackAt): nat {
    match pc
    case CheckArmed => 0 case OuterAlive => 1 case AwaitLock => 2 case CheckClosed => 3 case CheckEmitted => 4
    case InnerAlive => 5 case Select => 6 case StoreEmitted => 7 case CloseEmittedCh => 8 case _ => 0
  }

  /** What a callback's place says about what it has found, and whether it has sent. */
  predicate Trail(pc: CallbackAt, a: seq<Saw>, sent: bool) {
    match pc
    case Unlocking => if sent then GoesThrough(a) else TurnsBack(a)
    case Finished => if sent then GoesThrough(a) else TurnsBack(a)
    case StoreEmitted => sent && |a| == 7 && GoesThrough(a)
    case CloseEmittedCh => sent && |a| == 8 && GoesThrough(a)
    case _ => !sent && |a| == ActionsBefore(pc) && !TurnsBack(a)
  }

  lemma TrailNext(pc: CallbackAt, sh: Shared, a: seq<Saw>, sent: bool, k: nat, alive: bool, sends: bool)
    requires pc != Finished && Trail(pc, a, sent)
    ensures Trail(Next(pc, sh, alive, sends), a + [Saw(sh.armed, sh.closed, sh.emitted, alive, sends)],
                  sent || Sent(k) in Notes(pc, k, alive, sends))
  {
  }

  predicate TrailOf(s: State, k: nat, a: seq<Saw>) {
    if k in s.callbacks then Trail(s.callbacks[k], a, Sent(k) in s.log) else a == [] && Sent(k) !in s.log
  }

  lemma TrailOwn(s: State, k: nat, alive: bool, sends: bool, a: seq<Saw>)
    requires TrailOf(s, k, a) && Enabled(s, Run(k, alive, sends))
    ensures TrailOf(Step(s, Run(k, alive, sends)), k, a + [Saw(s.sh.armed, s.sh.closed, s.sh.emitted, alive, sends)])
  {
    hide Trail, Next;
    TrailNext(s.callbacks[k], s.sh, a, Sent(k) in s.log, k, alive, sends);
  }

  lemma TrailOther(s: State, e: Event, k: nat, a: seq<Saw>)
    requires TrailOf(s, k, a) && Enabled(s, e) && !(e.Run? && e.k == k)
    ensures TrailOf(Step(s, e), k, a)
  {
    assert Sent(k) in Step(s, e).log <==> Sent(k) in s.log;
  }

  lemma TrailStep(s: State, e: Event, k: nat, a: seq<Saw>)
    requires TrailOf(s, k, a) && Enabled(s, e)
    ensures TrailOf(Step(s, e), k, a + if e.Run? && e.k == k then [Saw(s.sh.armed, s.sh.closed, s.sh.emitted, e.alive, e.sends)] else [])
  {
    if e.Run? && e.k == k {
      TrailOwn(s, k, e.alive, e.sends, a);
    } else {
      TrailOther(s, e, k, a);
      assert a + [] == a;
    }
  }

  lemma {:induction false} TrailReachable(s0: State, evs: seq<Event>, k: nat)
    requires Initial(s0)
    ensures TrailOf(Exec(s0, evs), k, Found(s0, evs, k))
  {
    if evs != [] {
      TrailReachable(s0, evs[..|evs| - 1], k);
      TrailExtends(s0, evs, k);
    }
  }

  lemma TrailExtends(s0: State, evs: seq<Event>, k: nat)
    requires evs != [] && TrailOf(Exec(s0, evs[..|evs| - 1]), k, Found(s0, evs[..|evs| - 1], k))
    ensures TrailOf(Exec(s0, evs), k, Found(s0, evs, k))
  {
    hide TrailOf, Step, Enabled;
    var front, e := evs[..|evs| - 1], evs[|evs| - 1];
    var s, a := Exec(s0, front), Found(s0, front, k);
    if Enabled(s, e) {
      TrailStep(s, e, k, a);
    } else {
      assert a + [] == a;
    }
  }

  /**
   * Exactly which callbacks send: a callback that has finished has sent if and only if it found the
   * detector armed when it entered, passed the first identity check, then found neither the detector
   * closed nor a signal emitted, passed the second check, and its select sent.
   */
  lemma SentIff(s0: State, evs: seq<Event>, k: nat)
    requires Initial(s0) && k in Exec(s0, evs).callbacks && Exec(s0, evs).callbacks[k] == Finished
    ensures Sent(k) in Exec(s0, evs).log <==> GoesThrough(Found(s0, evs, k))
  {
    TrailReachable(s0, evs, k);
  }

  function ActionsLeft(m: MainAt): nat {
    match m
    case Waiting => 5 case Teardown => 4 case MainAwaitLock => 3 case SetClosed => 2 case MainUnlock => 1 case Returned => 0
  }

  /**
   * Once a signal is out or the context is cancelled, and no callback holds the mutex, the detector's
   * goroutine returns by its own actions alone: its watch stopped, `closed` set, the mutex free; and the
   * dispatcher may close the channel.
   */
  lemma {:induction false} MainReturns(s0: State, evs: seq<Event>, n: nat)
    requires Initial(s0) && !Exec(s0, evs).holder.Callback?
    requires Exec(s0, evs).sh.emittedCh || Exec(s0, evs).sh.ctxDone
    requires n >= ActionsLeft(Exec(s0, evs).main)
    ensures var s' := Exec(s0, evs + Times(RunMain, n));
            && s'.main == Returned && s'.sh.closed && s'.holder == Nobody
            && (Exec(s0, evs).main in {Waiting, Teardown} ==> !Owns(s'.w.reg, s0.w.mine))
            && s'.log == Exec(s0, evs).log
    decreases n
  {
    InvReachable(s0, evs);
    if n == 0 {
      assert evs + Times(RunMain, 0) == evs;
    } else {
      ExecConcatOne(s0, evs, RunMain);
      FirstOfTimes(RunMain, n);
      assert evs + Times(RunMain, n) == evs + [RunMain] + Times(RunMain, n - 1);
      MainReturns(s0, evs + [RunMain], n - 1);
      var s := Exec(s0, evs);
      if s.main == Teardown {
        KeepsOwning(s0, evs + [RunMain], n - 1);
      }
    }
  }

  lemma {:induction false} FirstOfTimes(e: Event, n: nat)
    requires n > 0
    ensures Times(e, n) == [e] + Times(e, n - 1)
  {
    if n > 1 { FirstOfTimes(e, n - 1); }
  }

  /** Past its teardown the goroutine installs nothing. */
  predicate PastTeardown(m: MainAt) {
    m.MainAwaitLock? || m.SetClosed? || m.MainUnlock? || m.Returned?
  }

  lemma {:induction false} KeepsOwning(s0: State, evs: seq<Event>, n: nat)
    requires PastTeardown(Exec(s0, evs).main)
    ensures Exec(s0, evs + Times(RunMain, n)).w == Exec(s0, evs).w
    ensures PastTeardown(Exec(s0, evs + Times(RunMain, n)).main)
  {
    hide Exec, Times, Enabled;
    ExecTimes(s0, evs, RunMain, if n == 0 then 0 else n - 1);
    if n > 0 { KeepsOwning(s0, evs, n - 1); }
  }
}
