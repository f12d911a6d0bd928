/** Listing chains newest first, page by page, with a text cursor. */
module Paging {
  import opened Basics
  import opened Decimals
  import opened Sorting
  import opened TraceRecords
  import opened TraceStore

  const DEFAULT_PAGE: int := 100

  // ---------------------------------------------------------------------------------------------
  // The cursor
  // ---------------------------------------------------------------------------------------------

  function EncodeCursor(startedAt: int, id: string): string {
    FormatInt(startedAt) + "|" + id
  }

  function Cut(s: string): Option<(string, string)> {
    if s == "" then None
    else if s[0] == '|' then Some(("", s[1..]))
    else
      var rest := Cut(s[1..]);
      if rest.None? then None else Some(([s[0]] + rest.value.0, rest.value.1))
  }

  function DecodeCursor(cursor: string): Option<(int, string)> {
    var parts := Cut(cursor);
    if parts.None? then None
    else
      var startedAt := ParseInt(parts.value.0);
      if startedAt.None? || parts.value.1 == "" then None else Some((startedAt.value, parts.value.1))
  }

  lemma {:induction false} CutAtBar(a: string, b: string)
    requires '|' !in a
    ensures Cut(a + "|" + b) == Some((a, b))
  {
    var s := a + "|" + b;
    if a == "" {
      assert s[1..] == b;
    } else {
      assert a[0] in a && forall c :: c in a[1..] ==> c in a;
      CutAtBar(a[1..], b);
      assert s[1..] == a[1..] + "|" + b;
      assert [a[0]] + a[1..] == a;
    }
  }

  lemma NoBar(n: int)
    ensures '|' !in FormatInt(n)
  {
    if n < 0 { assert forall c :: c in FormatInt(n) ==> c == '-' || c in FormatNat(-n); }
  }

  /** The cursor survives its text form exactly when the chain id is not empty, bars in the id included. */
  lemma CursorRoundTrip(startedAt: int, id: string)
    requires MIN_INT64 <= startedAt <= MAX_INT64
    ensures DecodeCursor(EncodeCursor(startedAt, id)) == if id == "" then None else Some((startedAt, id))
  {
    NoBar(startedAt);
    CutAtBar(FormatInt(startedAt), id);
    ParseFormatInt(startedAt);
  }

  // ---------------------------------------------------------------------------------------------
  // One page
  // ---------------------------------------------------------------------------------------------

  /** Empty fields do not filter. */
  datatype Query = Query(session: string, pane: string, agentType: string, event: string, limit: int, cursor: string,
                         before: bool)

  predicate Passes(q: Query, c: Chain) {
    && (q.session == "" || c.place.session == q.session) && (q.pane == "" || c.place.pane == q.pane)
    && (q.agentType == "" || c.root.agentType == q.agentType) && (q.event == "" || c.root.event == q.event)
  }

  /** The other side of the cursor's position, if there is a cursor. */
  predicate Beyond(at: Option<Key>, before: bool, k: Key) {
    at.None? || if before then Less(k, at.value) else Less(at.value, k)
  }

  function Select(chains: seq<ChainRow>, q: Query, at: Option<Key>): seq<ChainRow> {
    if chains == [] then []
    else if Passes(q, chains[0].chain) && Beyond(at, q.before, ChainKey(chains[0])) then
      [chains[0]] + Select(chains[1..], q, at)
    else Select(chains[1..], q, at)
  }

  function Limit(q: Query): (n: nat)
    ensures n > 0
  {
    if q.limit <= 0 then DEFAULT_PAGE else q.limit
  }

  /** The query's rows beyond a position, newest first, without the limit. */
  function Listed(chains: seq<ChainRow>, q: Query, at: Option<Key>): seq<ChainRow> {
    Backwards(Sort(Select(chains, q, at), ChainKey))
  }

  datatype KeyPage = KeyPage(rows: seq<ChainRow>, next: Option<Key>)

  function Cropped(rows: seq<ChainRow>, n: nat): KeyPage
    requires n > 0
  {
    if |rows| > n then KeyPage(rows[..n], Some(ChainKey(rows[n - 1]))) else KeyPage(rows, None)
  }

  /** `next` is empty on the last page. */
  datatype Page = Page(rows: seq<ChainRow>, next: string)

  function CursorText(at: Option<Key>): string {
    if at.None? then "" else EncodeCursor(at.value.major, at.value.id)
  }

  /** The position a cursor names; None when it is malformed. */
  function Position(cursor: string): Option<Option<Key>> {
    if cursor == "" then Some(None)
    else
      var c := DecodeCursor(cursor);
      if c.None? then None else Some(Some(Key(c.value.0, 0, c.value.1)))
  }

  function PageOf(chains: seq<ChainRow>, q: Query): Option<Page> {
    var at := Position(q.cursor);
    if at.None? then None
    else
      var p := Cropped(Listed(chains, q, at.value), Limit(q));
      Some(Page(p.rows, CursorText(p.next)))
  }

  method ListChains(chains: seq<ChainRow>, q: Query) returns (page: Option<Page>)
    ensures page == PageOf(chains, q)
  {
    hide Listed, Position, EncodeCursor;
    var limit := q.limit;
    if limit <= 0 { limit := DEFAULT_PAGE; }
    limit := limit + 1;
    var at := Position(q.cursor);
    if at.None? { return None; }
    var result := Listed(chains, q, at.value);
    var rows := FirstRows(result, limit);
    if |rows| > limit - 1 {
      var last := rows[limit - 2].chain;
      assert rows[..limit - 1] == result[..limit - 1] && last == result[limit - 2].chain;
      return Some(Page(rows[..limit - 1], EncodeCursor(last.startedAt, last.id)));
    }
    page := Some(Page(rows, ""));
  }

  /** The rows a query with a limit returns. */
  method FirstRows(result: seq<ChainRow>, limit: nat) returns (rows: seq<ChainRow>)
    ensures rows == if |result| > limit then result[..limit] else result
  {
    rows := [];
    var i := 0;
    while i < |result| && i < limit
      invariant 0 <= i <= |result| && i <= limit && rows == result[..i]
    {
      rows := rows + [result[i]];
      i := i + 1;
    }
    assert result[..|result|] == result;
  }

  // ---------------------------------------------------------------------------------------------
  // All pages
  // ---------------------------------------------------------------------------------------------

  /** A table as the store keeps it, with ids and times that fit the cursor. */
  ghost predicate Table(chains: seq<ChainRow>) {
    && Sorted(chains, ChainKey) && DistinctChains(chains)
    && forall i :: 0 <= i < |chains| ==> chains[i].chain.id != "" && MIN_INT64 <= chains[i].chain.startedAt <= MAX_INT64
  }

  lemma {:induction false} SelectMembers(chains: seq<ChainRow>, q: Query, at: Option<Key>)
    ensures forall c :: c in Select(chains, q, at) <==> c in chains && Passes(q, c.chain) && Beyond(at, q.before, ChainKey(c))
  {
    if chains != [] {
      SelectMembers(chains[1..], q, at);
      assert chains == [chains[0]] + chains[1..];
    }
  }

  lemma {:induction false} SelectIsTable(chains: seq<ChainRow>, q: Query, at: Option<Key>)
    requires Table(chains)
    ensures Table(Select(chains, q, at))
  {
    if chains != [] {
      SelectIsTable(chains[1..], q, at);
      var rest := Select(chains[1..], q, at);
      forall j | 0 <= j < |rest|
        ensures !Less(ChainKey(rest[j]), ChainKey(chains[0])) && rest[j].chain.id != chains[0].chain.id
      {
        SelectMembers(chains[1..], q, at);
        assert rest[j] in chains[1..];
        var k :| 0 <= k < |chains[1..]| && chains[1..][k] == rest[j];
        assert chains[k + 1] == rest[j];
      }
    }
  }

  /** Selecting with a cursor is selecting without one, then keeping one side. */
  function Side(rows: seq<ChainRow>, at: Key, before: bool): seq<ChainRow> {
    if rows == [] then []
    else if Beyond(Some(at), before, ChainKey(rows[0])) then [rows[0]] + Side(rows[1..], at, before)
    else Side(rows[1..], at, before)
  }

  lemma {:induction false} SelectSide(chains: seq<ChainRow>, q: Query, at: Key)
    ensures Select(chains, q, Some(at)) == Side(Select(chains, q, None), at, q.before)
  {
    if chains != [] { SelectSide(chains[1..], q, at); }
  }

  lemma {:induction false} NoneOnSide(rows: seq<ChainRow>, at: Key, before: bool)
    requires forall i :: 0 <= i < |rows| ==> !Beyond(Some(at), before, ChainKey(rows[i]))
    ensures Side(rows, at, before) == []
  {
    if rows != [] { NoneOnSide(rows[1..], at, before); }
  }

  lemma {:induction false} AllOnSide(rows: seq<ChainRow>, at: Key, before: bool)
    requires forall i :: 0 <= i < |rows| ==> Beyond(Some(at), before, ChainKey(rows[i]))
    ensures Side(rows, at, before) == rows
  {
    if rows != [] { AllOnSide(rows[1..], at, before); }
  }

  lemma {:induction false} SideConcat(a: seq<ChainRow>, b: seq<ChainRow>, at: Key, before: bool)
    ensures Side(a + b, at, before) == Side(a, at, before) + Side(b, at, before)
  {
    if a == [] {
      assert a + b == b;
    } else {
      assert (a + b)[1..] == a[1..] + b;
      SideConcat(a[1..], b, at, before);
    }
  }

  lemma KeysDiffer(rows: seq<ChainRow>, i: nat, j: nat)
    requires Table(rows) && i < j < |rows|
    ensures Less(ChainKey(rows[i]), ChainKey(rows[j])) && !Less(ChainKey(rows[j]), ChainKey(rows[i]))
  {
    LessTotal(ChainKey(rows[i]), ChainKey(rows[j]));
  }

  lemma SideParts(a: seq<ChainRow>, r: ChainRow, b: seq<ChainRow>, before: bool)
    requires forall i :: 0 <= i < |a| ==> (Beyond(Some(ChainKey(r)), before, ChainKey(a[i])) <==> before)
    requires forall i :: 0 <= i < |b| ==> (Beyond(Some(ChainKey(r)), before, ChainKey(b[i])) <==> !before)
    ensures Side(a + ([r] + b), ChainKey(r), before) == if before then a else b
  {
    var at := ChainKey(r);
    LessTotal(at, at);
    if before {
      AllOnSide(a, at, before);
      NoneOnSide(b, at, before);
    } else {
      NoneOnSide(a, at, before);
      AllOnSide(b, at, before);
    }
    NoneOnSide([r], at, before);
    SideConcat(a, [r] + b, at, before);
    SideConcat([r], b, at, before);
  }

  /** On either side of a row's own key lies exactly what comes before or after it. */
  lemma SideOfRow(rows: seq<ChainRow>, m: nat, before: bool)
    requires Table(rows) && m < |rows|
    ensures Side(rows, ChainKey(rows[m]), before) == if before then rows[..m] else rows[m + 1..]
  {
    var a, b := rows[..m], rows[m + 1..];
    forall i | 0 <= i < |a| ensures Beyond(Some(ChainKey(rows[m])), before, ChainKey(a[i])) <==> before {
      KeysDiffer(rows, i, m);
    }
    forall i | 0 <= i < |b| ensures Beyond(Some(ChainKey(rows[m])), before, ChainKey(b[i])) <==> !before {
      KeysDiffer(rows, m, m + 1 + i);
    }
    SideParts(a, rows[m], b, before);
    PartedAt(rows, m);
  }

  lemma PartedAt(rows: seq<ChainRow>, m: nat)
    requires m < |rows|
    ensures rows == rows[..m] + ([rows[m]] + rows[m + 1..])
  {
  }

  /** What a query lists from the position of the selection's row `m`: the older rows, or the newer ones. */
  lemma ListedFrom(chains: seq<ChainRow>, q: Query, m: nat)
    requires Table(chains) && m < |Select(chains, q, None)|
    ensures var rows := Select(chains, q, None);
            Listed(chains, q, Some(ChainKey(rows[m]))) == Backwards(if q.before then rows[..m] else rows[m + 1..])
  {
    var rows := Select(chains, q, None);
    SelectIsTable(chains, q, None);
    SelectSide(chains, q, ChainKey(rows[m]));
    SideOfRow(rows, m, q.before);
    var side := if q.before then rows[..m] else rows[m + 1..];
    assert Sorted(side, ChainKey);
    SortSorted(side, ChainKey);
  }

  lemma ListedFirst(chains: seq<ChainRow>, q: Query)
    requires Table(chains)
    ensures Listed(chains, q, None) == Backwards(Select(chains, q, None))
  {
    SelectIsTable(chains, q, None);
    SortSorted(Select(chains, q, None), ChainKey);
  }

  /** Reads at most `pages` pages, each from the position where the last one stopped; and whether that was all. */
  function FollowKeys(page: Option<Key> -> KeyPage, at: Option<Key>, pages: nat): (seq<ChainRow>, bool)
    decreases pages
  {
    if pages == 0 then ([], false)
    else
      var p := page(at);
      if p.next.None? then (p.rows, true)
      else
        var rest := FollowKeys(page, p.next, pages - 1);
        (p.rows + rest.0, rest.1)
  }

  function KeyPager(chains: seq<ChainRow>, q: Query): Option<Key> -> KeyPage {
    (at: Option<Key>) => Cropped(Listed(chains, q, at), Limit(q))
  }

  lemma CropSplit(rows: seq<ChainRow>, m: nat, n: nat)
    requires 0 < n && m <= |rows|
    ensures var p := Cropped(Backwards(rows[..m]), n);
            if m > n then p.next == Some(ChainKey(rows[m - n])) && p.rows + Backwards(rows[..m - n]) == Backwards(rows[..m])
            else p == KeyPage(Backwards(rows[..m]), None)
  {
  }

  /** The chain is one that the query's filters, as far as they are given, let through. */
  predicate Wanted(q: Query, c: Chain) {
    && (q.session != "" ==> c.place.session == q.session) && (q.pane != "" ==> c.place.pane == q.pane)
    && (q.agentType != "" ==> c.root.agentType == q.agentType) && (q.event != "" ==> c.root.event == q.event)
  }

  /** Earlier start, or the same start and an earlier id. */
  predicate Older(startedAt: int, id: string, startedAt': int, id': string) {
    startedAt < startedAt' || (startedAt == startedAt' && TextLess(id, id'))
  }

  /** On the asked side of the cursor. */
  predicate OnSide(at: Option<Key>, before: bool, c: Chain) {
    at.Some? ==> if before then Older(c.startedAt, c.id, at.value.major, at.value.id)
                 else Older(at.value.major, at.value.id, c.startedAt, c.id)
  }

  /**
   * One page: at most as many chains as asked for, or 100; all wanted and on the asked side of the cursor,
   * newest first; a continuation exactly if wanted chains are left over, which are then all older than the
   * page, and it names the page's last chain.
   */
  lemma PageExactly(chains: seq<ChainRow>, q: Query, at: Option<Key>)
    requires Table(chains) && (at.Some? ==> at.value.minor == 0)
    ensures var p := Cropped(Listed(chains, q, at), Limit(q));
            && |p.rows| <= (if q.limit > 0 then q.limit else 100)
            && (forall c :: c in p.rows ==> c in chains && Wanted(q, c.chain) && OnSide(at, q.before, c.chain))
            && (forall i, j :: 0 <= i < j < |p.rows| ==>
                  Older(p.rows[j].chain.startedAt, p.rows[j].chain.id, p.rows[i].chain.startedAt, p.rows[i].chain.id))
            && (p.next.None? ==> forall c :: c in chains && Wanted(q, c.chain) && OnSide(at, q.before, c.chain) ==> c in p.rows)
            && (p.next.Some? ==>
                  && p.rows != []
                  && var last := p.rows[|p.rows| - 1].chain;
                     && p.next == Some(Key(last.startedAt, 0, last.id)) && |p.rows| == (if q.limit > 0 then q.limit else 100)
                     && (forall c :: c in chains && Wanted(q, c.chain) && OnSide(at, q.before, c.chain) && c !in p.rows ==>
                           Older(c.chain.startedAt, c.chain.id, last.startedAt, last.id))
                     && exists c :: c in chains && Wanted(q, c.chain) && OnSide(at, q.before, c.chain) && c !in p.rows)
  {
    hide Listed, Cropped, Older, OnSide, Wanted, Table;
    ListedExactly(chains, q, at);
    CutExactly(Listed(chains, q, at), Limit(q));
  }

  /** The whole list that a page is cut from. */
  lemma ListedExactly(chains: seq<ChainRow>, q: Query, at: Option<Key>)
    requires Table(chains) && (at.Some? ==> at.value.minor == 0)
    ensures var all := Listed(chains, q, at);
            && (forall c :: c in all <==> c in chains && Wanted(q, c.chain) && OnSide(at, q.before, c.chain))
            && (forall i, j :: 0 <= i < j < |all| ==>
                  Older(all[j].chain.startedAt, all[j].chain.id, all[i].chain.startedAt, all[i].chain.id))
  {
    var sel := Select(chains, q, at);
    SelectIsTable(chains, q, at);
    SelectMembers(chains, q, at);
    SortSorted(sel, ChainKey);
    BackwardsFacts(sel);
    KeysAreOlder();
    forall c: ChainRow ensures Passes(q, c.chain) <==> Wanted(q, c.chain) { }
    forall c: ChainRow ensures Beyond(at, q.before, ChainKey(c)) <==> OnSide(at, q.before, c.chain) { }
  }

  lemma CutExactly(all: seq<ChainRow>, n: nat)
    requires n > 0
    requires forall i, j :: 0 <= i < j < |all| ==>
               Older(all[j].chain.startedAt, all[j].chain.id, all[i].chain.startedAt, all[i].chain.id)
    ensures var p := Cropped(all, n);
            && |p.rows| <= n && (forall c :: c in p.rows ==> c in all)
            && (forall i, j :: 0 <= i < j < |p.rows| ==>
                  Older(p.rows[j].chain.startedAt, p.rows[j].chain.id, p.rows[i].chain.startedAt, p.rows[i].chain.id))
            && (p.next.None? ==> p.rows == all)
            && (p.next.Some? ==>
                  && |p.rows| == n
                  && var last := p.rows[n - 1].chain;
                     && p.next == Some(Key(last.startedAt, 0, last.id))
                     && (forall c :: c in all && c !in p.rows ==> Older(c.chain.startedAt, c.chain.id, last.startedAt, last.id))
                     && exists c :: c in all && c !in p.rows)
  {
    KeysAreOlder();
    CroppedExactly(all, n);
    hide Cropped, Older, Less;
  }

  lemma KeysAreOlder()
    ensures forall a: ChainRow, b: ChainRow :: Less(ChainKey(a), ChainKey(b))
              <==> Older(a.chain.startedAt, a.chain.id, b.chain.startedAt, b.chain.id)
  {
  }

  /** Cutting a list that goes strictly down. */
  lemma CroppedExactly(all: seq<ChainRow>, n: nat)
    requires n > 0 && forall i, j :: 0 <= i < j < |all| ==> Less(ChainKey(all[j]), ChainKey(all[i]))
    ensures var p := Cropped(all, n);
            && |p.rows| <= n && (forall c :: c in p.rows ==> c in all)
            && (forall i, j :: 0 <= i < j < |p.rows| ==> Less(ChainKey(p.rows[j]), ChainKey(p.rows[i])))
            && (p.next.None? ==> p.rows == all)
            && (p.next.Some? ==>
                  && |p.rows| == n && p.next == Some(ChainKey(p.rows[n - 1]))
                  && (forall c :: c in all && c !in p.rows ==> Less(ChainKey(c), ChainKey(p.rows[n - 1])))
                  && exists c :: c in all && c !in p.rows)
  {
    var p := Cropped(all, n);
    if |all| > n {
      forall k | 0 <= k < n ensures all[k] in p.rows { assert p.rows[k] == all[k]; }
      forall c | c in all && c !in p.rows ensures Less(ChainKey(c), ChainKey(p.rows[n - 1])) {
        var i :| 0 <= i < |all| && all[i] == c;
        assert i >= n;
      }
      forall c | c in p.rows ensures c != all[n] {
        var i :| 0 <= i < n && p.rows[i] == c;
        LessTotal(ChainKey(c), ChainKey(c));
      }
      assert all[n] in all;
    }
  }

  /** From below position `m` of the rows, all that follows. */
  lemma {:induction false} FollowBelow(page: Option<Key> -> KeyPage, rows: seq<ChainRow>, n: nat, at: Option<Key>, m: nat, pages: nat)
    requires 0 < n && m <= |rows| && m < pages && page(at) == Cropped(Backwards(rows[..m]), n)
    requires forall k :: 0 <= k < |rows| ==> page(Some(ChainKey(rows[k]))) == Cropped(Backwards(rows[..k]), n)
    ensures FollowKeys(page, at, pages) == (Backwards(rows[..m]), true)
    decreases m
  {
    hide Cropped, Backwards;
    CropSplit(rows, m, n);
    if m > n { FollowBelow(page, rows, n, Some(ChainKey(rows[m - n])), m - n, pages - 1); }
  }

  lemma FollowAll(chains: seq<ChainRow>, q: Query, pages: nat)
    requires Table(chains) && q.before && pages > |Select(chains, q, None)|
    ensures FollowKeys(KeyPager(chains, q), None, pages) == (Backwards(Select(chains, q, None)), true)
  {
    var rows := Select(chains, q, None);
    ListedFirst(chains, q);
    assert rows[..|rows|] == rows;
    forall k | 0 <= k < |rows|
      ensures KeyPager(chains, q)(Some(ChainKey(rows[k]))) == Cropped(Backwards(rows[..k]), Limit(q))
    {
      ListedFrom(chains, q, k);
    }
    FollowBelow(KeyPager(chains, q), rows, Limit(q), None, |rows|, pages);
  }

  /** The same by text cursors: `page` answers each cursor. */
  function FollowText(page: string -> Option<Page>, cursor: string, pages: nat): (seq<ChainRow>, bool)
    decreases pages
  {
    if pages == 0 then ([], false)
    else
      var p := page(cursor);
      if p.None? then ([], false)
      else if p.value.next == "" then (p.value.rows, true)
      else
        var rest := FollowText(page, p.value.next, pages - 1);
        (p.value.rows + rest.0, rest.1)
  }

  /** The store's answers to a query continued backwards in time from each cursor. */
  function TextPager(chains: seq<ChainRow>, q: Query): string -> Option<Page> {
    (cursor: string) => PageOf(chains, q.(cursor := cursor, before := true))
  }

  /** Two ways of paging agree if each page does and its continuation can be named. */
  lemma {:induction false} FollowAgree(page: Option<Key> -> KeyPage, named: string -> Option<Page>, text: Option<Key> -> string,
                                       ok: Option<Key> -> bool, at: Option<Key>, pages: nat)
    requires ok(at)
    requires forall a :: ok(a) ==> ok(page(a).next) && (text(page(a).next) == "" <==> page(a).next.None?)
    requires forall a :: ok(a) ==> named(text(a)) == Some(Page(page(a).rows, text(page(a).next)))
    ensures FollowText(named, text(at), pages) == FollowKeys(page, at, pages)
    decreases pages
  {
    if pages > 0 && page(at).next.Some? {
      FollowAgree(page, named, text, ok, page(at).next, pages - 1);
    }
  }

  /** A position whose text form is lossless. */
  predicate Storable(at: Option<Key>) {
    at.Some? ==> at.value.minor == 0 && at.value.id != "" && MIN_INT64 <= at.value.major <= MAX_INT64
  }

  lemma PositionOfText(at: Option<Key>)
    requires Storable(at)
    ensures Position(CursorText(at)) == Some(at) && (CursorText(at) == "" <==> at.None?)
  {
    if at.Some? {
      CursorRoundTrip(at.value.major, at.value.id);
      assert |CursorText(at)| >= 1;
    }
  }

  lemma NextStorable(chains: seq<ChainRow>, q: Query, at: Option<Key>)
    requires Table(chains)
    ensures Storable(Cropped(Listed(chains, q, at), Limit(q)).next)
  {
    var rows, n := Listed(chains, q, at), Limit(q);
    if |rows| > n {
      SelectIsTable(chains, q, at);
      SortSorted(Select(chains, q, at), ChainKey);
    }
  }

  lemma {:induction false} SameListed(chains: seq<ChainRow>, q: Query, cursor: string, at: Option<Key>)
    ensures Select(chains, q.(cursor := cursor), at) == Select(chains, q, at)
  {
    if chains != [] { SameListed(chains[1..], q, cursor, at); }
  }

  /** One page by text is one page by position. */
  lemma PageByText(chains: seq<ChainRow>, q: Query, at: Option<Key>)
    requires Storable(at)
    ensures var p := Cropped(Listed(chains, q, at), Limit(q));
            PageOf(chains, q.(cursor := CursorText(at))) == Some(Page(p.rows, CursorText(p.next)))
  {
    PositionOfText(at);
    SameListed(chains, q, CursorText(at), at);
  }

  lemma FollowByText(chains: seq<ChainRow>, q: Query, pages: nat)
    requires Table(chains) && q.before
    ensures FollowText(TextPager(chains, q), "", pages) == FollowKeys(KeyPager(chains, q), None, pages)
  {
    var page, named := KeyPager(chains, q), TextPager(chains, q);
    var text, ok := (a: Option<Key>) => CursorText(a), (a: Option<Key>) => Storable(a);
    forall a | ok(a)
      ensures ok(page(a).next) && (text(page(a).next) == "" <==> page(a).next.None?)
      ensures named(text(a)) == Some(Page(page(a).rows, text(page(a).next)))
    {
      NextStorable(chains, q, a);
      PositionOfText(page(a).next);
      PageByText(chains, q, a);
      assert q.(cursor := CursorText(a), before := true) == q.(cursor := CursorText(a));
    }
    FollowAgree(page, named, text, ok, None, pages);
  }

  lemma BackwardsFacts(rows: seq<ChainRow>)
    requires Table(rows)
    ensures forall c :: c in Backwards(rows) <==> c in rows
    ensures forall i, j :: 0 <= i < j < |rows| ==> Less(ChainKey(Backwards(rows)[j]), ChainKey(Backwards(rows)[i]))
  {
    var all := Backwards(rows);
    forall c ensures c in all <==> c in rows {
      if c in rows {
        var i :| 0 <= i < |rows| && rows[i] == c;
        assert all[|rows| - 1 - i] == c;
      }
    }
    forall i, j | 0 <= i < j < |rows| ensures Less(ChainKey(all[j]), ChainKey(all[i])) {
      KeysDiffer(rows, |rows| - 1 - j, |rows| - 1 - i);
    }
  }

  /** The filtered list, newest first, each chain once. */
  ghost predicate NewestFirst(chains: seq<ChainRow>, q: Query, all: seq<ChainRow>) {
    && (forall c :: c in all <==> c in chains && Passes(q, c.chain))
    && (forall i, j :: 0 <= i < j < |all| ==> Less(ChainKey(all[j]), ChainKey(all[i])))
  }

  /**
   * Starting without a cursor and following each page's cursor backwards in time ends, and the pages put
   * together are the whole filtered list, newest first, each chain once.
   */
  lemma PagesAreTheWholeList(chains: seq<ChainRow>, q: Query, pages: nat)
    requires Table(chains) && pages > |chains|
    ensures FollowText(TextPager(chains, q), "", pages).1
    ensures NewestFirst(chains, q, FollowText(TextPager(chains, q), "", pages).0)
  {
    var q1 := q.(before := true);
    var rows := Select(chains, q1, None);
    SelectSmaller(chains, q1);
    FollowAll(chains, q1, pages);
    FollowByText(chains, q1, pages);
    SamePager(chains, q, pages);
    SelectIsTable(chains, q1, None);
    SelectMembers(chains, q1, None);
    BackwardsFacts(rows);
    assert forall c :: Passes(q1, c) <==> Passes(q, c);
  }

  lemma SamePager(chains: seq<ChainRow>, q: Query, pages: nat)
    ensures FollowText(TextPager(chains, q.(before := true)), "", pages) == FollowText(TextPager(chains, q), "", pages)
  {
    var a, b := TextPager(chains, q.(before := true)), TextPager(chains, q);
    forall c ensures a(c) == b(c) {
      assert q.(before := true).(cursor := c, before := true) == q.(cursor := c, before := true);
    }
    SameAnswers(a, b, "", pages);
  }

  lemma {:induction false} SameAnswers(a: string -> Option<Page>, b: string -> Option<Page>, cursor: string, pages: nat)
    requires forall c :: a(c) == b(c)
    ensures FollowText(a, cursor, pages) == FollowText(b, cursor, pages)
    decreases pages
  {
    if pages > 0 && a(cursor).Some? { SameAnswers(a, b, a(cursor).value.next, pages - 1); }
  }

  lemma {:induction false} SelectSmaller(chains: seq<ChainRow>, q: Query)
    ensures |Select(chains, q, None)| <= |chains|
  {
    if chains != [] { SelectSmaller(chains[1..], q); }
  }

  lemma FirstPageIs(chains: seq<ChainRow>, q: Query)
    requires Table(chains) && q.cursor == ""
    ensures var p := Cropped(Backwards(Select(chains, q, None)), Limit(q));
            && PageOf(chains, q) == Some(Page(p.rows, CursorText(p.next)))
            && (CursorText(p.next) == "" <==> p.next.None?) && Storable(p.next)
  {
    ListedFirst(chains, q);
    NextStorable(chains, q, None);
    var p := Cropped(Backwards(Select(chains, q, None)), Limit(q));
    PositionOfText(p.next);
    PageByText(chains, q, None);
  }

  lemma NewerPageIs(chains: seq<ChainRow>, q: Query, k: nat)
    requires Table(chains) && !q.before && k < |Select(chains, q, None)| && |Select(chains, q, None)| - k - 1 <= Limit(q)
    requires Storable(Some(ChainKey(Select(chains, q, None)[k])))
    ensures var rows := Select(chains, q, None);
            PageOf(chains, q.(cursor := CursorText(Some(ChainKey(rows[k]))))) == Some(Page(Backwards(rows[k + 1..]), ""))
  {
    ListedFrom(chains, q, k);
    PageByText(chains, q, Some(ChainKey(Select(chains, q, None)[k])));
  }

  /**
   * Following a cursor without asking for older chains goes nowhere: the second page is the first one
   * without its last row, and there is no third.
   */
  lemma ForwardPagesRepeat(chains: seq<ChainRow>, q: Query, p: Page)
    requires Table(chains) && q.cursor == "" && !q.before && PageOf(chains, q) == Some(p) && p.next != ""
    ensures PageOf(chains, q.(cursor := p.next)) == Some(Page(p.rows[..|p.rows| - 1], ""))
  {
    hide PageOf, CursorText, Select, Cropped;
    var rows, n := Select(chains, q, None), Limit(q);
    FirstPageIs(chains, q);
    FirstPageRows(chains, q, p);
    NewerPageIs(chains, q, |rows| - n);
    NewerRows(rows, n);
  }

  lemma FirstPageRows(chains: seq<ChainRow>, q: Query, p: Page)
    requires p.next != ""
    requires var c := Cropped(Backwards(Select(chains, q, None)), Limit(q));
             p == Page(c.rows, CursorText(c.next)) && (CursorText(c.next) == "" <==> c.next.None?)
    ensures var rows, n := Select(chains, q, None), Limit(q);
            && |rows| > n && p.rows == Backwards(rows)[..n] && p.next == CursorText(Some(ChainKey(rows[|rows| - n])))
            && Cropped(Backwards(rows), n).next == Some(ChainKey(rows[|rows| - n]))
  {
    hide Backwards, Select, Cropped;
    CropNext(Select(chains, q, None), Limit(q));
  }

  lemma CropNext(rows: seq<ChainRow>, n: nat)
    requires n > 0
    ensures var p := Cropped(Backwards(rows), n);
            if |rows| > n then |Backwards(rows)| > n && p == KeyPage(Backwards(rows)[..n], Some(ChainKey(rows[|rows| - n])))
            else p.next.None?
  {
  }

  lemma NewerRows(rows: seq<ChainRow>, n: nat)
    requires 0 < n < |rows|
    ensures Backwards(rows[|rows| - n + 1..]) == Backwards(rows)[..n][..n - 1]
  {
  }
}
