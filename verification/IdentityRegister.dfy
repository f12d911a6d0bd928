/**
 * The versioned session identity (session id and working directory) kept beside each frame.
 *
 * Two hooks of one process can reach the database in either order.  Each event takes a number when the
 * daemon receives it; a write is applied only if the row's number is not larger, and only the fields
 * the event carries are written.
 */
module IdentityRegister {
  import opened Basics

  datatype Name = Name(sessionID: string, cwd: string, seqNo: nat)

  /** What one event reports; an empty field means "not reported". */
  datatype Report = Report(sessionID: string, cwd: string, seqNo: nat)

  predicate Full(e: Report) { e.sessionID != "" && e.cwd != "" }

  function Accept(n: Name, e: Report): Name {
    if (e.sessionID == "" && e.cwd == "") || n.seqNo > e.seqNo then n
    else Name(if e.sessionID != "" then e.sessionID else n.sessionID, if e.cwd != "" then e.cwd else n.cwd, e.seqNo)
  }

  function Deliver(n: Name, es: seq<Report>): Name {
    if es == [] then n else Accept(Deliver(n, es[..|es| - 1]), es[|es| - 1])
  }

  /** Versions name events: two deliveries with one number are the same event, sent again. */
  ghost predicate Consistent(es: seq<Report>) {
    forall i, j :: 0 <= i < |es| && 0 <= j < |es| && es[i].seqNo == es[j].seqNo ==> es[i] == es[j]
  }

  /**
   * For events that carry both fields, any delivery order with any retries ends in exactly the event
   * with the highest version, or in the row as it stood when that was newer still.
   */
  lemma {:induction false} HighestVersionWins(n: Name, es: seq<Report>, top: nat)
    requires Consistent(es) && top < |es|
    requires forall i :: 0 <= i < |es| ==> Full(es[i]) && es[i].seqNo <= es[top].seqNo
    ensures Deliver(n, es) == if n.seqNo <= es[top].seqNo then Name(es[top].sessionID, es[top].cwd, es[top].seqNo) else n
  {
    var last := |es| - 1;
    if n.seqNo > es[top].seqNo {
      AllStale(n, es);
    } else {
      NeverAbove(n, es[..last], es[top].seqNo);
      if top < last {
        HighestVersionWins(n, es[..last], top);
      } else if exists i :: 0 <= i < last && es[i].seqNo == es[last].seqNo {
        var i :| 0 <= i < last && es[i].seqNo == es[last].seqNo;
        HighestVersionWins(n, es[..last], i);
      }
    }
  }

  lemma {:induction false} AllStale(n: Name, es: seq<Report>)
    requires forall i :: 0 <= i < |es| ==> es[i].seqNo < n.seqNo
    ensures Deliver(n, es) == n
  {
    if es != [] { AllStale(n, es[..|es| - 1]); }
  }

  lemma {:induction false} NeverAbove(n: Name, es: seq<Report>, bound: nat)
    requires n.seqNo <= bound && forall i :: 0 <= i < |es| ==> es[i].seqNo <= bound
    ensures Deliver(n, es).seqNo <= bound
  {
    if es != [] { NeverAbove(n, es[..|es| - 1], bound); }
  }

  /** Two delivery orders of the same full events end in the same row, whatever the row held before. */
  lemma DeliveryOrderIsIrrelevant(n: Name, es: seq<Report>, es': seq<Report>)
    requires Consistent(es) && Consistent(es') && (forall e :: e in es <==> e in es')
    requires forall i :: 0 <= i < |es| ==> Full(es[i])
    ensures Deliver(n, es) == Deliver(n, es')
  {
    assert es' == [] || es'[0] in es';
    if es != [] {
      var top := TopOf(es);
      assert es[top] in es';
      var top' :| 0 <= top' < |es'| && es'[top'] == es[top];
      assert forall i :: 0 <= i < |es| ==> es[i] in es;
      HighestVersionWins(n, es, top);
      forall i | 0 <= i < |es'| ensures Full(es'[i]) && es'[i].seqNo <= es'[top'].seqNo {
        assert es'[i] in es;
      }
      HighestVersionWins(n, es', top');
    }
  }

  lemma {:induction false} TopOf(es: seq<Report>) returns (top: nat)
    requires es != []
    ensures top < |es| && forall i :: 0 <= i < |es| ==> es[i].seqNo <= es[top].seqNo
  {
    top := 0;
    for k := 1 to |es|
      invariant top < |es| && forall i :: 0 <= i < k ==> es[i].seqNo <= es[top].seqNo
    {
      if es[k].seqNo > es[top].seqNo { top := k; }
    }
  }

  // ---------------------------------------------------------------------------------------------
  // Partial events
  // ---------------------------------------------------------------------------------------------

  /** The register, with the version that each field's value came from. */
  datatype Origins = Origins(name: Name, sessionFrom: nat, cwdFrom: nat)

  function AcceptFrom(o: Origins, e: Report): Origins {
    var n := Accept(o.name, e);
    if (e.sessionID == "" && e.cwd == "") || o.name.seqNo > e.seqNo then o
    else Origins(n, if e.sessionID != "" then e.seqNo else o.sessionFrom, if e.cwd != "" then e.seqNo else o.cwdFrom)
  }

  function DeliverFrom(o: Origins, es: seq<Report>): Origins {
    if es == [] then o else AcceptFrom(DeliverFrom(o, es[..|es| - 1]), es[|es| - 1])
  }

  /** No event, partial or not, lowers the version or replaces a field's value by an older one. */
  lemma {:induction false} FieldsNeverGoBack(o: Origins, es: seq<Report>, i: nat)
    requires o.sessionFrom <= o.name.seqNo && o.cwdFrom <= o.name.seqNo && i <= |es|
    ensures var a, b := DeliverFrom(o, es[..i]), DeliverFrom(o, es);
            && b.name == Deliver(o.name, es)
            && a.name.seqNo <= b.name.seqNo && a.sessionFrom <= b.sessionFrom && a.cwdFrom <= b.cwdFrom
            && b.sessionFrom <= b.name.seqNo && b.cwdFrom <= b.name.seqNo
            && (a.name.sessionID != b.name.sessionID ==>
                  exists j :: 0 <= j < |es| && es[j].seqNo == b.sessionFrom && es[j].sessionID == b.name.sessionID)
            && (a.name.cwd != b.name.cwd ==>
                  exists j :: 0 <= j < |es| && es[j].seqNo == b.cwdFrom && es[j].cwd == b.name.cwd)
  {
    if i < |es| {
      var front := es[..|es| - 1];
      FieldsNeverGoBack(o, front, i);
      assert front[..i] == es[..i];
    } else {
      assert es[..i] == es;
      if es != [] { FieldsNeverGoBack(o, es[..|es| - 1], |es| - 1); assert es[..|es| - 1][..|es| - 1] == es[..|es| - 1]; }
    }
  }

  /**
   * Partial events do not converge.  Delivering the newer of two events first gives the same row as
   * delivering it last if and only if it reports every field that the older one would have changed.
   */
  lemma PartialOrderMatters(n: Name, older: Report, newer: Report)
    requires n.seqNo <= older.seqNo < newer.seqNo && (newer.sessionID != "" || newer.cwd != "")
    ensures Deliver(n, [newer, older]) == Deliver(n, [older, newer])
       <==> && (older.sessionID in {"", n.sessionID} || newer.sessionID != "")
            && (older.cwd in {"", n.cwd} || newer.cwd != "")
  {
    assert [newer, older][..1] == [newer] && [older, newer][..1] == [older];
    assert Deliver(n, [newer]) == Accept(n, newer) && Deliver(n, [older]) == Accept(n, older);
  }

  // ---------------------------------------------------------------------------------------------
  // The store
  // ---------------------------------------------------------------------------------------------

  datatype WriteResult = Written | NothingReported | NoRow | OutOfOrder

  class Register {
    var names: map<nat, Name>  // by frame id; deleting a frame deletes its entry
    var identitySeq: nat

    /** Every number on disk was handed out by the counter. */
    ghost predicate Valid()
      reads this
    {
      forall f :: f in names ==> names[f].seqNo <= identitySeq
    }

    /** Opening the store over the rows an earlier daemon left behind. */
    constructor (stored: map<nat, Name>)
      ensures Valid() && names == stored
      ensures forall f :: f in stored ==> stored[f].seqNo <= identitySeq
      ensures identitySeq == 0 || exists f :: f in stored && stored[f].seqNo == identitySeq
    {
      names := stored;
      identitySeq := 0;
      new;
      var rest := stored.Keys;
      while rest != {}
        invariant rest <= stored.Keys && names == stored
        invariant forall f :: f in stored && f !in rest ==> stored[f].seqNo <= identitySeq
        invariant identitySeq == 0 || exists f :: f in stored && stored[f].seqNo == identitySeq
      {
        var f :| f in rest;
        if stored[f].seqNo > identitySeq { identitySeq := stored[f].seqNo; }
        rest := rest - {f};
      }
    }

    /** Every new event gets a number above everything stored, right after a restart too. */
    method NextIdentitySeq() returns (v: nat)
      requires Valid()
      modifies this`identitySeq
      ensures Valid() && identitySeq == old(identitySeq) + 1 == v
      ensures forall f :: f in names ==> names[f].seqNo < v
    {
      identitySeq := identitySeq + 1;
      v := identitySeq;
    }

    method UpdateSessionIdentity(f: nat, e: Report) returns (r: WriteResult)
      requires Valid() && e.seqNo <= identitySeq
      modifies this`names
      ensures Valid()
      ensures names == if f in old(names) then old(names)[f := Accept(old(names)[f], e)] else old(names)
      ensures r == if e.sessionID == "" && e.cwd == "" then NothingReported
                   else if f !in old(names) then NoRow
                   else if old(names)[f].seqNo > e.seqNo then OutOfOrder else Written
    {
      if e.sessionID == "" && e.cwd == "" {
        if f in names { assert names[f := Accept(names[f], e)] == names; }
        return NothingReported;
      }
      if f in names && names[f].seqNo <= e.seqNo {
        var sessionID, cwd := names[f].sessionID, names[f].cwd;
        if e.sessionID != "" { sessionID := e.sessionID; }
        if e.cwd != "" { cwd := e.cwd; }
        names := names[f := Name(sessionID, cwd, e.seqNo)];
        return Written;
      }
      if f !in names { return NoRow; }
      assert names[f := Accept(names[f], e)] == names;
      r := OutOfOrder;
    }
  }
}
