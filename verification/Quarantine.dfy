/** The quarantine list: one entry per broker key, the latest wins. */
module Quarantine {
  import opened Processes

  datatype Entry = Entry(key: string, pid: int, lstart: Moment, expiresAt: Moment)

  predicate IsQuarantined(q: seq<Entry>, key: string) {
    exists e :: e in q && e.key == key
  }

  function Added(q: seq<Entry>, entry: Entry): seq<Entry> {
    if q == [] then [entry] else if q[0].key == entry.key then [entry] + q[1..] else [q[0]] + Added(q[1..], entry)
  }

  ghost predicate OnePerKey(q: seq<Entry>) {
    forall i, j :: 0 <= i < j < |q| ==> q[i].key != q[j].key
  }

  /** Adding quarantines that key and no other, keeps every other entry, and never doubles a key. */
  lemma {:induction false} AddedQuarantines(q: seq<Entry>, entry: Entry)
    ensures forall k :: IsQuarantined(Added(q, entry), k) <==> IsQuarantined(q, k) || k == entry.key
    ensures entry in Added(q, entry)
    ensures forall e :: e in q && e.key != entry.key ==> e in Added(q, entry)
    ensures OnePerKey(q) ==> OnePerKey(Added(q, entry)) && forall e :: e in Added(q, entry) && e.key == entry.key ==> e == entry
  {
    forall k ensures IsQuarantined(Added(q, entry), k) <==> IsQuarantined(q, k) || k == entry.key { AddedKeys(q, entry, k); }
    AddedKeeps(q, entry);
    if OnePerKey(q) { AddedOnePerKey(q, entry); }
  }

  lemma {:induction false} AddedKeys(q: seq<Entry>, entry: Entry, k: string)
    ensures IsQuarantined(Added(q, entry), k) <==> IsQuarantined(q, k) || k == entry.key
  {
    if q != [] {
      var rest := q[1..];
      AddedKeys(rest, entry, k);
      FirstKey(q, k);
      FirstKey(Added(q, entry), k);
      assert Added(q, entry)[1..] == if q[0].key == entry.key then rest else Added(rest, entry);
    }
  }

  lemma FirstKey(q: seq<Entry>, k: string)
    requires q != []
    ensures IsQuarantined(q, k) <==> q[0].key == k || IsQuarantined(q[1..], k)
  {
    assert q == [q[0]] + q[1..];
  }

  lemma {:induction false} AddedKeeps(q: seq<Entry>, entry: Entry)
    ensures entry in Added(q, entry)
    ensures forall e :: e in q && e.key != entry.key ==> e in Added(q, entry)
  {
    if q != [] {
      AddedKeeps(q[1..], entry);
      assert q == [q[0]] + q[1..];
    }
  }

  lemma {:induction false} AddedOnePerKey(q: seq<Entry>, entry: Entry)
    requires OnePerKey(q)
    ensures OnePerKey(Added(q, entry)) && forall e :: e in Added(q, entry) && e.key == entry.key ==> e == entry
  {
    if q != [] {
      var rest := q[1..];
      AddedOnePerKey(rest, entry);
      if q[0].key != entry.key {
        forall e | e in rest ensures e.key != q[0].key {
          var i :| 0 <= i < |rest| && rest[i] == e;
          assert q[i + 1] == e;
        }
        AddedKeys(rest, entry, q[0].key);
        assert forall e :: e in Added(rest, entry) ==> e.key != q[0].key;
      }
    }
  }

  class QuarantineFile {
    var entries: seq<Entry>

    constructor (entries: seq<Entry>)
      ensures this.entries == entries
    {
      this.entries := entries;
    }

    method AddEntry(entry: Entry)
      modifies this
      ensures entries == Added(old(entries), entry)
    {
      for i := 0 to |entries|
        invariant entries == old(entries)
        invariant Added(entries, entry) == entries[..i] + Added(entries[i..], entry)
      {
        assert entries[i..][1..] == entries[i + 1..];
        if entries[i].key == entry.key {
          assert entries[..i] + ([entry] + entries[i + 1..]) == entries[i := entry];
          entries := entries[i := entry];
          return;
        }
      }
      entries := entries + [entry];
    }

    /** Entries without an expiry stay; the file itself is not touched. */
    method PurgeExpired(now: Moment) returns (kept: seq<Entry>)
      ensures forall e :: e in kept <==> e in entries && (e.expiresAt == UNKNOWN || e.expiresAt > now)
      ensures OnePerKey(entries) ==> OnePerKey(kept)
    {
      kept := [];
      for i := 0 to |entries|
        invariant forall e :: e in kept <==> e in entries[..i] && (e.expiresAt == UNKNOWN || e.expiresAt > now)
        invariant OnePerKey(entries) ==> OnePerKey(kept)
      {
        var e := entries[i];
        if e.expiresAt == UNKNOWN || e.expiresAt > now { kept := kept + [e]; }
      }
    }
  }
}
