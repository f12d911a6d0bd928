/**
 * The ordered kill of one broker: check its identity, commit the audit preimage, ask it to shut down,
 * then SIGTERM and SIGKILL its process group, and remove its socket directory.
 *
 * Everything the outside world answers (process listings, the audit write, group lookups, signal
 * delivery, the socket check) is a parameter; what the sequence does is a log of effects.
 */
module KillSequence {
  import opened Basics
  import opened Processes

  const LSTART_TOLERANCE: int := SECOND

  datatype Target = Target(pid: int, lstart: Moment, endpoint: string, socketDir: string)

  // ---------------------------------------------------------------------------------------------
  // Identity
  // ---------------------------------------------------------------------------------------------

  datatype Detail = NoListing | CmdlineMismatch | LstartZeroMismatch | LstartDrift | Match | PidNotFound

  /** The first row with the target's pid decides, whatever comes after it. */
  method VerifyIdentity(rec: Target, listing: Listing) returns (ok: bool, detail: Detail)
    ensures ok <==> Verifies(rec, listing)
    ensures ok <==> detail == Match
    ensures detail == NoListing <==> listing.None?
    ensures detail == PidNotFound <==> ShowsGone(listing, rec.pid)
  {
    if listing.None? { return false, NoListing; }
    var rows := listing.value;
    for i := 0 to |rows|
      invariant forall r :: r in rows[..i] ==> r.pid != rec.pid
      invariant FirstWithPid(rows, rec.pid) == FirstWithPid(rows[i..], rec.pid)
    {
      var row := rows[i];
      assert row in rows && rows[i..][1..] == rows[i + 1..];
      if row.pid != rec.pid { continue; }
      if !Contains(row.cmdline, BROKER_MARKER) { return false, CmdlineMismatch; }
      if (row.lstart == UNKNOWN) != (rec.lstart == UNKNOWN) { return false, LstartZeroMismatch; }
      var drift := Sub(row.lstart, rec.lstart);
      if drift < 0 { drift := Negate(drift); }
      if drift > LSTART_TOLERANCE { return false, LstartDrift; }
      return true, Match;
    }
    return false, PidNotFound;
  }

  /** Same process, by everything a listing can show. */
  predicate SameStart(row: Moment, rec: Moment) {
    (row == UNKNOWN <==> rec == UNKNOWN) && (-LSTART_TOLERANCE <= row - rec <= LSTART_TOLERANCE || row - rec <= MIN_DURATION)
  }

  predicate Verifies(rec: Target, listing: Listing) {
    && listing.Some?
    && var row := FirstWithPid(listing.value, rec.pid);
       row.Some? && Contains(row.value.cmdline, BROKER_MARKER) && SameStart(row.value.lstart, rec.lstart)
  }

  /**
   * The tolerance is one second either way, except that a row started 2^63 ns (292 years) or more before
   * the record passes too: its saturated difference is its own negation.  No process listing shows such a
   * row: start times there are recent, and one that could not be parsed is unknown and rejected.
   */
  lemma ToleranceHasAHole(rec: Target, row: Row)
    requires row.pid == rec.pid && Contains(row.cmdline, BROKER_MARKER) && row.lstart != UNKNOWN && rec.lstart != UNKNOWN
    ensures var drift := Sub(row.lstart, rec.lstart);
            !((if drift < 0 then Negate(drift) else drift) > LSTART_TOLERANCE) <==> SameStart(row.lstart, rec.lstart)
    ensures Verifies(rec, Some([row])) && !(-SECOND <= row.lstart - rec.lstart <= SECOND)
       <==> row.lstart - rec.lstart <= -0x8000_0000_0000_0000
  {
    assert FirstWithPid([row], rec.pid) == Some(row);
  }

  // ---------------------------------------------------------------------------------------------
  // What one run does
  // ---------------------------------------------------------------------------------------------

  datatype Signal = TERM | KILL

  datatype Effect =
    | Verified(seen: Listing, ok: bool)
    | Preimage(written: bool)
    | ShutdownAsked
    | Polled(gone: bool)
    | LookedUp(pgid: Option<int>)
    | Signalled(sig: Signal, group: int, delivered: bool)
    | DirRemoved(removed: bool)

  /** Which collaborators are wired in. */
  datatype Wiring = Wiring(dialer: bool, signaller: bool, verifier: bool)

  /** The answers around one signal: the identity listing, the group, the delivery, the polls until the budget ends. */
  datatype SignalAnswers = SignalAnswers(rows: Listing, pgid: Option<int>, delivered: bool, polls: seq<Listing>)

  /** `socketHeld` is None when the socket check itself fails. */
  datatype Answers = Answers(first: Listing, preimage: bool, gracefulPolls: seq<Listing>, term: SignalAnswers,
                             kill: SignalAnswers, socketHeld: Option<bool>, dirRemoved: bool)

  function Polling(pid: int, polls: seq<Listing>): seq<Effect> {
    if polls == [] then []
    else if ShowsGone(polls[0], pid) then [Polled(true)]
    else [Polled(false)] + Polling(pid, polls[1..])
  }

  predicate SeenGone(pid: int, polls: seq<Listing>) {
    exists i :: 0 <= i < |polls| && ShowsGone(polls[i], pid)
  }

  predicate Dialable(w: Wiring, endpoint: string) {
    w.dialer && "unix:" <= endpoint
  }

  function GracefulEffects(rec: Target, w: Wiring, a: Answers): seq<Effect> {
    if Dialable(w, rec.endpoint) then [ShutdownAsked] + Polling(rec.pid, a.gracefulPolls) else []
  }

  predicate GracefulWorks(rec: Target, w: Wiring, a: Answers) {
    Dialable(w, rec.endpoint) && SeenGone(rec.pid, a.gracefulPolls)
  }

  datatype StepEnd = Exited | Stayed | Mismatch

  predicate Signallable(pgid: Option<int>) {
    pgid.Some? && pgid.value > 1
  }

  function SignalEffects(rec: Target, w: Wiring, sig: Signal, s: SignalAnswers): seq<Effect> {
    if !w.signaller then []
    else if !Verifies(rec, s.rows) then [Verified(s.rows, false)]
    else if !Signallable(s.pgid) then [Verified(s.rows, true), LookedUp(s.pgid)]
    else [Verified(s.rows, true), LookedUp(s.pgid), Signalled(sig, s.pgid.value, s.delivered)]
         + if s.delivered then Polling(rec.pid, s.polls) else []
  }

  function SignalEnds(rec: Target, w: Wiring, s: SignalAnswers): StepEnd {
    if !w.signaller then Stayed
    else if !Verifies(rec, s.rows) then Mismatch
    else if Signallable(s.pgid) && s.delivered && SeenGone(rec.pid, s.polls) then Exited
    else Stayed
  }

  function CleanupEffects(rec: Target, w: Wiring, a: Answers): seq<Effect> {
    if rec.socketDir == "" || (w.verifier && a.socketHeld == Some(true)) then [] else [DirRemoved(a.dirRemoved)]
  }

  predicate CleansUp(rec: Target, w: Wiring, a: Answers) {
    rec.socketDir == "" || (!(w.verifier && a.socketHeld == Some(true)) && a.dirRemoved)
  }

  /** The TERM step, and the KILL step if the broker was not seen to exit. */
  function SignalSteps(rec: Target, w: Wiring, a: Answers): seq<Effect> {
    SignalEffects(rec, w, TERM, a.term)
    + if SignalEnds(rec, w, a.term) == Stayed then SignalEffects(rec, w, KILL, a.kill) else []
  }

  predicate SignalStepsMismatch(rec: Target, w: Wiring, a: Answers) {
    SignalEnds(rec, w, a.term) == Mismatch
    || (SignalEnds(rec, w, a.term) == Stayed && SignalEnds(rec, w, a.kill) == Mismatch)
  }

  function AfterPreimage(rec: Target, w: Wiring, a: Answers): seq<Effect> {
    if GracefulWorks(rec, w, a) then GracefulEffects(rec, w, a) + CleanupEffects(rec, w, a)
    else
      GracefulEffects(rec, w, a) + SignalSteps(rec, w, a)
      + if SignalStepsMismatch(rec, w, a) then [] else CleanupEffects(rec, w, a)
  }

  /** Everything one run does, in order. */
  function Effects(rec: Target, w: Wiring, a: Answers): seq<Effect> {
    if !Verifies(rec, a.first) then [Verified(a.first, false)]
    else if !a.preimage then [Verified(a.first, true), Preimage(false)]
    else [Verified(a.first, true), Preimage(true)] + AfterPreimage(rec, w, a)
  }

  datatype RunError = IdentityMismatch | PreimageFailed

  datatype KillResult = KillResult(gracefulOk: bool, termOk: bool, killOk: bool, cleanedUp: bool)

  predicate Mismatches(rec: Target, w: Wiring, a: Answers) {
    || !Verifies(rec, a.first)
    || (a.preimage && !GracefulWorks(rec, w, a) && SignalStepsMismatch(rec, w, a))
  }

  /** What a completed run reports. */
  predicate Reports(rec: Target, w: Wiring, a: Answers, res: KillResult) {
    && res.gracefulOk == GracefulWorks(rec, w, a)
    && res.termOk == (!res.gracefulOk && SignalEnds(rec, w, a.term) == Exited)
    && res.killOk == (!res.gracefulOk && SignalEnds(rec, w, a.term) == Stayed && SignalEnds(rec, w, a.kill) == Exited)
    && res.cleanedUp == CleansUp(rec, w, a)
  }

  class Killer {
    const rec: Target
    const w: Wiring
    var log: seq<Effect>

    constructor (rec: Target, w: Wiring)
      ensures this.rec == rec && this.w == w && log == []
    {
      this.rec, this.w, log := rec, w, [];
    }

    method Verify(listing: Listing) returns (ok: bool)
      modifies this`log
      ensures ok == Verifies(rec, listing) && log == old(log) + [Verified(listing, ok)]
    {
      var detail;
      ok, detail := VerifyIdentity(rec, listing);
      log := log + [Verified(listing, ok)];
    }

    method WaitForExit(polls: seq<Listing>) returns (gone: bool)
      modifies this`log
      ensures gone == SeenGone(rec.pid, polls) && log == old(log) + Polling(rec.pid, polls)
    {
      for i := 0 to |polls|
        invariant forall j :: 0 <= j < i ==> !ShowsGone(polls[j], rec.pid)
        invariant log + Polling(rec.pid, polls[i..]) == old(log) + Polling(rec.pid, polls)
      {
        assert polls[i..][1..] == polls[i + 1..];
        var goneNow := ShowsGone(polls[i], rec.pid);
        log := log + [Polled(goneNow)];
        if goneNow { return true; }
      }
      gone := false;
    }

    method StepGraceful(a: Answers) returns (ok: bool)
      modifies this`log
      ensures ok == GracefulWorks(rec, w, a) && log == old(log) + GracefulEffects(rec, w, a)
      ensures old(log) <= log && (ok <==> Polled(true) in log[|old(log)|..])
    {
      PollingExactly(rec.pid, a.gracefulPolls);
      assert (old(log) + GracefulEffects(rec, w, a))[|old(log)|..] == GracefulEffects(rec, w, a);
      if rec.endpoint == "" || !w.dialer { return false; }
      if !("unix:" <= rec.endpoint) { return false; }
      log := log + [ShutdownAsked];
      ok := WaitForExit(a.gracefulPolls);
    }

    method SignalAndWait(sig: Signal, s: SignalAnswers) returns (end: StepEnd)
      modifies this`log
      ensures end == SignalEnds(rec, w, s) && log == old(log) + SignalEffects(rec, w, sig, s)
    {
      if !w.signaller { return Stayed; }
      var same := Verify(s.rows);
      if !same { return Mismatch; }
      log := log + [LookedUp(s.pgid)];
      if s.pgid.None? { return Stayed; }
      if s.pgid.value <= 1 { return Stayed; }
      log := log + [Signalled(sig, s.pgid.value, s.delivered)];
      if !s.delivered { return Stayed; }
      var gone := WaitForExit(s.polls);
      end := if gone then Exited else Stayed;
    }

    method StepCleanup(a: Answers) returns (ok: bool)
      modifies this`log
      ensures ok == CleansUp(rec, w, a) && log == old(log) + CleanupEffects(rec, w, a)
    {
      if rec.socketDir == "" { return true; }
      if w.verifier && a.socketHeld.Some? && a.socketHeld.value { return false; }
      log := log + [DirRemoved(a.dirRemoved)];
      ok := a.dirRemoved;
    }

    method SendSignals(a: Answers) returns (termOk: bool, killOk: bool, mismatch: bool)
      modifies this`log
      ensures log == old(log) + SignalSteps(rec, w, a) && mismatch == SignalStepsMismatch(rec, w, a)
      ensures termOk == (SignalEnds(rec, w, a.term) == Exited)
      ensures killOk == (SignalEnds(rec, w, a.term) == Stayed && SignalEnds(rec, w, a.kill) == Exited)
    {
      killOk := false;
      var term := SignalAndWait(TERM, a.term);
      termOk, mismatch := term == Exited, term == Mismatch;
      if term == Stayed {
        var kill := SignalAndWait(KILL, a.kill);
        killOk, mismatch := kill == Exited, kill == Mismatch;
      }
    }

    /** The whole sequence: what it logs, when it fails, and what it reports. */
    method Run(a: Answers) returns (res: KillResult, err: Option<RunError>)
      modifies this`log
      ensures log == old(log) + Effects(rec, w, a)
      ensures err == Some(IdentityMismatch) <==> Mismatches(rec, w, a)
      ensures err == Some(PreimageFailed) <==> Verifies(rec, a.first) && !a.preimage
      ensures err.None? ==> Reports(rec, w, a, res)
    {
      res := KillResult(false, false, false, false);
      var same := Verify(a.first);
      if !same { return res, Some(IdentityMismatch); }
      log := log + [Preimage(a.preimage)];
      if !a.preimage { return res, Some(PreimageFailed); }
      ghost var committed := log;
      res, err := RunCommitted(a);
      assert log == committed + AfterPreimage(rec, w, a);
    }

    /** The steps after the preimage. */
    method RunCommitted(a: Answers) returns (res: KillResult, err: Option<RunError>)
      modifies this`log
      ensures log == old(log) + AfterPreimage(rec, w, a)
      ensures err == if !GracefulWorks(rec, w, a) && SignalStepsMismatch(rec, w, a) then Some(IdentityMismatch) else None
      ensures err.None? ==> Reports(rec, w, a, res)
    {
      res := KillResult(false, false, false, false);
      ghost var before := log;
      var graceful := StepGraceful(a);
      res := res.(gracefulOk := graceful);
      Regroup(before, GracefulEffects(rec, w, a), CleanupEffects(rec, w, a), []);
      Regroup(before, GracefulEffects(rec, w, a), SignalSteps(rec, w, a), CleanupEffects(rec, w, a));
      if !graceful {
        var termOk, killOk, mismatch := SendSignals(a);
        res := res.(termOk := termOk, killOk := killOk);
        if mismatch { return res, Some(IdentityMismatch); }
      }
      var cleaned := StepCleanup(a);
      res := res.(cleanedUp := cleaned);
      err := None;
    }
  }

  // ---------------------------------------------------------------------------------------------
  // What is safe about it
  // ---------------------------------------------------------------------------------------------

  /** Each signal comes right after a passed identity check and the lookup of a group above 1. */
  ghost predicate Guarded(rec: Target, es: seq<Effect>) {
    forall n :: 0 <= n < |es| && es[n].Signalled? ==> GuardedAt(rec, es, n)
  }

  predicate GuardedAt(rec: Target, es: seq<Effect>, n: nat)
    requires n < |es| && es[n].Signalled?
  {
    && n >= 2 && es[n].group > 1 && es[n - 1] == LookedUp(Some(es[n].group))
    && es[n - 2].Verified? && es[n - 2].ok && Verifies(rec, es[n - 2].seen)
  }

  predicate Failed(e: Effect) { e.Verified? && !e.ok }

  /** A failed identity check is the last thing that happens, and records a real failure. */
  ghost predicate EndsAtMismatch(rec: Target, es: seq<Effect>) {
    forall n :: 0 <= n < |es| && Failed(es[n]) ==> n == |es| - 1 && !Verifies(rec, es[n].seen)
  }

  ghost predicate Quiet(es: seq<Effect>) {
    forall e :: e in es ==> !e.Signalled? && !e.Verified?
  }

  lemma {:induction false} PollingIsQuiet(pid: int, polls: seq<Listing>)
    ensures Quiet(Polling(pid, polls))
  {
    if polls != [] { PollingIsQuiet(pid, polls[1..]); }
  }

  lemma GuardedConcat(rec: Target, a: seq<Effect>, b: seq<Effect>)
    requires Guarded(rec, a) && Guarded(rec, b)
    ensures Guarded(rec, a + b)
  {
    forall n | 0 <= n < |a + b| && (a + b)[n].Signalled? ensures GuardedAt(rec, a + b, n) {
      if n < |a| { assert GuardedAt(rec, a, n); } else { assert GuardedAt(rec, b, n - |a|); }
    }
  }

  lemma MismatchConcat(rec: Target, a: seq<Effect>, b: seq<Effect>)
    requires EndsAtMismatch(rec, a) && EndsAtMismatch(rec, b) && (b == [] || forall e :: e in a ==> !Failed(e))
    ensures EndsAtMismatch(rec, a + b)
  {
  }

  /** The two signals a step may send, and what it shows of its checks. */
  lemma SignalStepIsSafe(rec: Target, w: Wiring, sig: Signal, s: SignalAnswers)
    ensures var es := SignalEffects(rec, w, sig, s);
            && Guarded(rec, es) && EndsAtMismatch(rec, es)
            && ((exists e :: e in es && Failed(e)) <==> SignalEnds(rec, w, s) == Mismatch)
            && (forall n :: 0 <= n < |es| && es[n].Signalled? ==> n == 2 && es[n].sig == sig)
            && ((exists e :: e in es && e.Signalled?) <==> w.signaller && Verifies(rec, s.rows) && Signallable(s.pgid))
  {
    PollingIsQuiet(rec.pid, s.polls);
    var es := SignalEffects(rec, w, sig, s);
    if !w.signaller {
    } else if !Verifies(rec, s.rows) {
      assert es[0] in es;
    } else if Signallable(s.pgid) {
      assert es[2] in es && es[2].Signalled?;
    }
  }

  lemma QuietIsSafe(rec: Target, es: seq<Effect>)
    requires Quiet(es)
    ensures Guarded(rec, es) && EndsAtMismatch(rec, es) && forall e :: e in es ==> !Failed(e)
  {
    assert forall n :: 0 <= n < |es| ==> es[n] in es;
  }

  lemma SignalStepsAreSafe(rec: Target, w: Wiring, a: Answers)
    ensures Guarded(rec, SignalSteps(rec, w, a)) && EndsAtMismatch(rec, SignalSteps(rec, w, a))
    ensures (exists e :: e in SignalSteps(rec, w, a) && Failed(e)) <==> SignalStepsMismatch(rec, w, a)
  {
    SignalStepIsSafe(rec, w, TERM, a.term);
    SignalStepIsSafe(rec, w, KILL, a.kill);
    var term := SignalEffects(rec, w, TERM, a.term);
    var kill := if SignalEnds(rec, w, a.term) == Stayed then SignalEffects(rec, w, KILL, a.kill) else [];
    GuardedConcat(rec, term, kill);
    MismatchConcat(rec, term, kill);
    assert forall e :: e in SignalSteps(rec, w, a) <==> e in term || e in kill;
  }

  lemma AfterPreimageIsSafe(rec: Target, w: Wiring, a: Answers)
    ensures Guarded(rec, AfterPreimage(rec, w, a)) && EndsAtMismatch(rec, AfterPreimage(rec, w, a))
    ensures (exists e :: e in AfterPreimage(rec, w, a) && Failed(e))
       <==> !GracefulWorks(rec, w, a) && SignalStepsMismatch(rec, w, a)
  {
    PollingIsQuiet(rec.pid, a.gracefulPolls);
    var graceful, cleanup := GracefulEffects(rec, w, a), CleanupEffects(rec, w, a);
    QuietIsSafe(rec, graceful);
    QuietIsSafe(rec, cleanup);
    if GracefulWorks(rec, w, a) {
      GuardedConcat(rec, graceful, cleanup);
      MismatchConcat(rec, graceful, cleanup);
    } else {
      var steps := SignalSteps(rec, w, a);
      var rest := if SignalStepsMismatch(rec, w, a) then [] else cleanup;
      SignalStepsAreSafe(rec, w, a);
      GuardedConcat(rec, graceful, steps);
      MismatchConcat(rec, graceful, steps);
      GuardedConcat(rec, graceful + steps, rest);
      MismatchConcat(rec, graceful + steps, rest);
    }
  }

  /**
   * For every behaviour of the outside world: each signal follows a committed preimage and, immediately,
   * a passed identity check and the lookup of its group, which is above 1; and a failed identity check
   * ends the run, which reports it.
   */
  lemma EverySignalIsGuarded(rec: Target, w: Wiring, a: Answers)
    ensures var es := Effects(rec, w, a);
            && Guarded(rec, es) && EndsAtMismatch(rec, es)
            && (forall n :: 0 <= n < |es| && es[n].Signalled? ==> n > 1 && es[1] == Preimage(true))
            && ((exists e :: e in es && Failed(e)) <==> Mismatches(rec, w, a))
  {
    var es := Effects(rec, w, a);
    if !Verifies(rec, a.first) {
      assert es[0] in es;
    } else if a.preimage {
      var start := [Verified(a.first, true), Preimage(true)];
      AfterPreimageIsSafe(rec, w, a);
      GuardedConcat(rec, start, AfterPreimage(rec, w, a));
      MismatchConcat(rec, start, AfterPreimage(rec, w, a));
    }
  }

  lemma NoRemovals(rec: Target, w: Wiring, a: Answers)
    ensures forall e :: e in GracefulEffects(rec, w, a) + SignalSteps(rec, w, a) ==> !e.DirRemoved?
  {
    PollingOnlyPolls(rec.pid, a.gracefulPolls);
    PollingOnlyPolls(rec.pid, a.term.polls);
    PollingOnlyPolls(rec.pid, a.kill.polls);
  }

  lemma InMiddle(a: seq<Effect>, b: seq<Effect>, c: seq<Effect>, n: nat)
    requires |a| <= n < |a| + |b|
    ensures (a + b + c)[n] in b
  {
    assert (a + b + c)[n] == b[n - |a|];
  }

  lemma {:induction false} PollingOnlyPolls(pid: int, polls: seq<Listing>)
    ensures forall e :: e in Polling(pid, polls) ==> e.Polled?
  {
    if polls != [] { PollingOnlyPolls(pid, polls[1..]); }
  }

  /**
   * The socket directory is removed only as the very last thing, by a run that failed neither its checks
   * nor its preimage, and never while the socket is known to be held.
   */
  lemma RemovalComesLast(rec: Target, w: Wiring, a: Answers, n: nat)
    requires n < |Effects(rec, w, a)| && Effects(rec, w, a)[n].DirRemoved?
    ensures n == |Effects(rec, w, a)| - 1 && !Mismatches(rec, w, a) && a.preimage
    ensures rec.socketDir != "" && !(w.verifier && a.socketHeld == Some(true))
  {
    NoRemovals(rec, w, a);
    var start, graceful, steps := [Verified(a.first, true), Preimage(true)], GracefulEffects(rec, w, a), SignalSteps(rec, w, a);
    var es := Effects(rec, w, a);
    if Verifies(rec, a.first) && a.preimage {
      var before := if GracefulWorks(rec, w, a) then graceful else graceful + steps;
      var after := if !GracefulWorks(rec, w, a) && SignalStepsMismatch(rec, w, a) then [] else CleanupEffects(rec, w, a);
      assert AfterPreimage(rec, w, a) == before + after;
      assert es == start + before + after;
      if 2 <= n < 2 + |before| { InMiddle(start, before, after, n); }
    }
  }

  /** The signals of a run, in the order they were sent. */
  function Signals(es: seq<Effect>): seq<Signal> {
    if es == [] then []
    else if es[0].Signalled? then [es[0].sig] + Signals(es[1..])
    else Signals(es[1..])
  }

  lemma {:induction false} SignalsConcat(a: seq<Effect>, b: seq<Effect>)
    ensures Signals(a + b) == Signals(a) + Signals(b)
  {
    if a == [] {
      assert a + b == b;
    } else {
      assert (a + b)[1..] == a[1..] + b;
      SignalsConcat(a[1..], b);
    }
  }

  lemma {:induction false} NoSignals(es: seq<Effect>)
    requires forall e :: e in es ==> !e.Signalled?
    ensures Signals(es) == []
  {
    if es != [] {
      assert es[0] in es;
      NoSignals(es[1..]);
    }
  }

  predicate StepSends(rec: Target, w: Wiring, s: SignalAnswers) {
    w.signaller && Verifies(rec, s.rows) && Signallable(s.pgid)
  }

  lemma StepSignals(rec: Target, w: Wiring, sig: Signal, s: SignalAnswers)
    ensures Signals(SignalEffects(rec, w, sig, s)) == if StepSends(rec, w, s) then [sig] else []
  {
    var es := SignalEffects(rec, w, sig, s);
    PollingIsQuiet(rec.pid, s.polls);
    if StepSends(rec, w, s) {
      NoSignals(es[..2]);
      NoSignals(es[3..]);
      SignalsConcat(es[..2], es[2..]);
      assert es == es[..2] + es[2..] && es[2..][1..] == es[3..];
    } else {
      NoSignals(es);
    }
  }

  lemma SignalStepsSend(rec: Target, w: Wiring, a: Answers)
    ensures Signals(SignalSteps(rec, w, a))
         == (if StepSends(rec, w, a.term) then [TERM] else [])
            + if SignalEnds(rec, w, a.term) == Stayed && StepSends(rec, w, a.kill) then [KILL] else []
  {
    var kill := if SignalEnds(rec, w, a.term) == Stayed then SignalEffects(rec, w, KILL, a.kill) else [];
    StepSignals(rec, w, TERM, a.term);
    StepSignals(rec, w, KILL, a.kill);
    SignalsConcat(SignalEffects(rec, w, TERM, a.term), kill);
  }

  /**
   * What is sent, in every case: a TERM if the shutdown request did not work and the TERM step may
   * signal, then a KILL if the TERM step did not see the broker exit and the KILL step may signal.  So
   * each is sent at most once and a TERM never follows a KILL.
   */
  lemma SendsExactly(rec: Target, w: Wiring, a: Answers)
    ensures var reached := Verifies(rec, a.first) && a.preimage && !GracefulWorks(rec, w, a);
            Signals(Effects(rec, w, a))
              == (if reached && StepSends(rec, w, a.term) then [TERM] else [])
                 + if reached && SignalEnds(rec, w, a.term) == Stayed && StepSends(rec, w, a.kill) then [KILL] else []
  {
    if Verifies(rec, a.first) && a.preimage {
      PollingIsQuiet(rec.pid, a.gracefulPolls);
      var graceful, cleanup := GracefulEffects(rec, w, a), CleanupEffects(rec, w, a);
      var start := [Verified(a.first, true), Preimage(true)];
      NoSignals(start);
      NoSignals(graceful);
      NoSignals(cleanup);
      SignalsConcat(start, AfterPreimage(rec, w, a));
      if GracefulWorks(rec, w, a) {
        SignalsConcat(graceful, cleanup);
      } else {
        SignalStepsSend(rec, w, a);
        SignalsConcat(graceful, SignalSteps(rec, w, a));
        SignalsConcat(graceful + SignalSteps(rec, w, a), if SignalStepsMismatch(rec, w, a) then [] else cleanup);
      }
    } else {
      NoSignals(Effects(rec, w, a));
    }
  }

  // ---------------------------------------------------------------------------------------------
  // What it does about what it sees
  // ---------------------------------------------------------------------------------------------

  predicate NeverGone(pid: int, polls: seq<Listing>) {
    forall i :: 0 <= i < |polls| ==> !ShowsGone(polls[i], pid)
  }

  /** Polling looks at one listing after another and stops with the first that shows the pid gone. */
  lemma {:induction false} PollingExactly(pid: int, polls: seq<Listing>)
    ensures var r := Polling(pid, polls);
            && |r| <= |polls| && (forall i :: 0 <= i < |r| ==> r[i] == Polled(ShowsGone(polls[i], pid)))
            && (forall i :: 0 <= i < |r| - 1 ==> r[i] == Polled(false))
            && (|r| < |polls| ==> r != [] && r[|r| - 1] == Polled(true))
            && (Polled(true) in r <==> !NeverGone(pid, polls))
  {
    if polls != [] && !ShowsGone(polls[0], pid) {
      PollingExactly(pid, polls[1..]);
      assert NeverGone(pid, polls) <==> NeverGone(pid, polls[1..]) by {
        assert polls == [polls[0]] + polls[1..];
      }
    }
  }

  /**
   * When it signals, by what it sees.  After a passed first check and a committed preimage: if the broker
   * could be asked to shut down and a poll then showed it gone, nothing is sent.  Otherwise TERM is sent
   * exactly when the TERM step's check passes and finds a group above 1; and KILL exactly when that check
   * passed, no TERM was seen to work, and the KILL step's check passes and finds a group above 1.
   */
  lemma SignalsWhatStays(rec: Target, w: Wiring, a: Answers)
    requires Verifies(rec, a.first) && a.preimage
    ensures var sent := Signals(Effects(rec, w, a));
            var asked := w.dialer && |rec.endpoint| >= 5 && rec.endpoint[..5] == "unix:";
            var term := w.signaller && Verifies(rec, a.term.rows) && a.term.pgid.Some? && a.term.pgid.value > 1;
            var worked := term && a.term.delivered && !NeverGone(rec.pid, a.term.polls);
            if asked && !NeverGone(rec.pid, a.gracefulPolls) then sent == []
            else
              && (TERM in sent <==> term)
              && (KILL in sent <==> w.signaller && Verifies(rec, a.term.rows) && !worked
                                    && Verifies(rec, a.kill.rows) && a.kill.pgid.Some? && a.kill.pgid.value > 1)
  {
    SendsExactly(rec, w, a);
    assert w.dialer && |rec.endpoint| >= 5 && rec.endpoint[..5] == "unix:" <==> Dialable(w, rec.endpoint);
  }

  lemma StepSees(rec: Target, w: Wiring, sig: Signal, s: SignalAnswers)
    ensures Polled(true) in SignalEffects(rec, w, sig, s) <==> SignalEnds(rec, w, s) == Exited
    ensures SignalEnds(rec, w, s) == Exited ==> StepSends(rec, w, s)
  {
    PollingExactly(rec.pid, s.polls);
  }

  lemma SignalStepsSee(rec: Target, w: Wiring, a: Answers)
    ensures Polled(true) in SignalSteps(rec, w, a)
       <==> SignalEnds(rec, w, a.term) == Exited
            || (SignalEnds(rec, w, a.term) == Stayed && SignalEnds(rec, w, a.kill) == Exited)
  {
    StepSees(rec, w, TERM, a.term);
    StepSees(rec, w, KILL, a.kill);
  }

  predicate Committed(rec: Target, w: Wiring, a: Answers) {
    Verifies(rec, a.first) && a.preimage && forall e :: e in Effects(rec, w, a) ==> !Failed(e)
  }

  /** The parts of a committed run's log. */
  lemma CommittedParts(rec: Target, w: Wiring, a: Answers)
    requires Committed(rec, w, a)
    ensures !Mismatches(rec, w, a)
    ensures var middle := if GracefulWorks(rec, w, a) then [] else SignalSteps(rec, w, a);
            forall e :: e in Effects(rec, w, a)
              <==> || e == Verified(a.first, true) || e == Preimage(true) || e in GracefulEffects(rec, w, a)
                   || e in middle || e in CleanupEffects(rec, w, a)
  {
    EverySignalIsGuarded(rec, w, a);
    var middle := if GracefulWorks(rec, w, a) then [] else SignalSteps(rec, w, a);
    assert !SignalStepsMismatch(rec, w, a) || GracefulWorks(rec, w, a);
    assert AfterPreimage(rec, w, a) == GracefulEffects(rec, w, a) + middle + CleanupEffects(rec, w, a);
    InParts([Verified(a.first, true), Preimage(true)], GracefulEffects(rec, w, a), middle, CleanupEffects(rec, w, a));
  }

  lemma InParts(a: seq<Effect>, b: seq<Effect>, c: seq<Effect>, d: seq<Effect>)
    ensures forall e :: e in a + (b + c + d) <==> e in a || e in b || e in c || e in d
  {
  }

  /** What a committed run's log holds of polls and removals. */
  lemma CommittedLog(rec: Target, w: Wiring, a: Answers)
    requires Committed(rec, w, a)
    ensures var es := Effects(rec, w, a);
            && (Polled(true) in es <==> GracefulWorks(rec, w, a) || Polled(true) in SignalSteps(rec, w, a))
            && (GracefulWorks(rec, w, a) ==> Signals(es) == [])
            && (forall x: bool :: DirRemoved(x) in es <==> DirRemoved(x) in CleanupEffects(rec, w, a))
  {
    CommittedParts(rec, w, a);
    PollingExactly(rec.pid, a.gracefulPolls);
    SendsExactly(rec, w, a);
    NoRemovals(rec, w, a);
    assert Polled(true) in GracefulEffects(rec, w, a) <==> GracefulWorks(rec, w, a);
    assert Polled(true) !in CleanupEffects(rec, w, a);
    hide Effects, SignalSteps, Signals, CleanupEffects, Polling;
    forall x: bool ensures DirRemoved(x) in Effects(rec, w, a) <==> DirRemoved(x) in CleanupEffects(rec, w, a) {
      assert !(DirRemoved(x) in GracefulEffects(rec, w, a) + SignalSteps(rec, w, a));
    }
    if GracefulWorks(rec, w, a) { NotBoth(rec, w, a); }
  }

  lemma NotBoth(rec: Target, w: Wiring, a: Answers)
    requires Verifies(rec, a.first) && a.preimage && GracefulWorks(rec, w, a)
    ensures Signals(Effects(rec, w, a)) == []
  {
    SendsExactly(rec, w, a);
  }

  /**
   * What a completed run reports is what its log shows: each success is a poll that saw the broker gone,
   * after the shutdown request alone, after TERM alone, or after KILL; and the clean-up is a removal that
   * worked, or there was nothing to remove.
   */
  lemma ReportsWhatWasSeen(rec: Target, w: Wiring, a: Answers, res: KillResult)
    requires Committed(rec, w, a) && Reports(rec, w, a, res)
    ensures var es := Effects(rec, w, a);
            && (res.gracefulOk <==> Polled(true) in es && Signals(es) == [])
            && (res.termOk <==> Polled(true) in es && Signals(es) == [TERM])
            && (res.killOk <==> Polled(true) in es && KILL in Signals(es))
            && (res.cleanedUp <==> rec.socketDir == "" || DirRemoved(true) in es)
  {
    CommittedLog(rec, w, a);
    SignalStepsSee(rec, w, a);
    StepSees(rec, w, TERM, a.term);
    StepSees(rec, w, KILL, a.kill);
    SendsExactly(rec, w, a);
    CleanupSees(rec, w, a);
    hide Effects, SignalEffects, SignalEnds, SignalSteps, Signals, GracefulWorks, CleanupEffects, CleansUp, StepSends, Verifies;
    var signals := !GracefulWorks(rec, w, a);
    SignalList(signals && StepSends(rec, w, a.term),
               signals && SignalEnds(rec, w, a.term) == Stayed && StepSends(rec, w, a.kill));
  }

  lemma SignalList(term: bool, kill: bool)
    ensures var s := (if term then [TERM] else []) + if kill then [KILL] else [];
            (s == [] <==> !term && !kill) && (s == [TERM] <==> term && !kill) && (KILL in s <==> kill)
  {
    var s := (if term then [TERM] else []) + if kill then [KILL] else [];
    assert term ==> s[0] == TERM;
    assert kill ==> s[|s| - 1] == KILL;
  }

  lemma CleanupSees(rec: Target, w: Wiring, a: Answers)
    ensures DirRemoved(true) in CleanupEffects(rec, w, a) || rec.socketDir == "" <==> CleansUp(rec, w, a)
  {
  }

  /** The directory is removed whenever a completed run finds one that is not known to be held. */
  lemma RemovesIff(rec: Target, w: Wiring, a: Answers)
    requires Committed(rec, w, a)
    ensures DirRemoved(a.dirRemoved) in Effects(rec, w, a)
       <==> rec.socketDir != "" && !(w.verifier && a.socketHeld == Some(true))
  {
    CommittedLog(rec, w, a);
  }

  /**
   * A KILL is not always preceded by a TERM.  It is sent without one exactly when the TERM step found no
   * group that it may signal, and the KILL step then did.
   */
  lemma KillWithoutTerm(rec: Target, w: Wiring, a: Answers)
    ensures Signals(Effects(rec, w, a)) == [KILL]
       <==> && Verifies(rec, a.first) && a.preimage && !GracefulWorks(rec, w, a) && w.signaller
            && Verifies(rec, a.term.rows) && !Signallable(a.term.pgid)
            && Verifies(rec, a.kill.rows) && Signallable(a.kill.pgid)
  {
    SendsExactly(rec, w, a);
    var sent := Signals(Effects(rec, w, a));
    if sent != [] { assert sent[0] in sent; }
  }

  /** Such a run: the group lookup fails once, then works. */
  lemma KillWithoutTermHappens() returns (rec: Target, w: Wiring, a: Answers)
    ensures Signals(Effects(rec, w, a)) == [KILL]
  {
    rec, w := Target(7, 5, "", ""), Wiring(false, true, false);
    var seen := Some([Row(7, BROKER_MARKER, 5)]);
    var step := SignalAnswers(seen, None, true, []);
    a := Answers(seen, true, [], step, step.(pgid := Some(7)), None, false);
    assert BROKER_MARKER <= BROKER_MARKER[0..];
    assert Contains(BROKER_MARKER, BROKER_MARKER);
    KillWithoutTerm(rec, w, a);
  }
}
