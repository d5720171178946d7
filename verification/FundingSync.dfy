/**
 * Synchronisation of an account's funding payments into a local ledger.
 *
 * The cursor is the newest ledger row of the symbol minus an overlap; pages are fetched
 * oldest first, at most ten of them per sync, and rows are upserted by transaction id.
 * Times are milliseconds. The exchange is an input: the rows it shows at one sync.
 */
module FundingSync {
  import opened Common

  const OVERLAP: int := 300000
  const BACKFILL: int := 2592000000
  const MAX_PAGES: nat := 10

  /** A payment as the exchange reports it. */
  datatype Income = Income(tranId: string, time: Option<int>, income: real, symbol: Option<string>)

  datatype Entry = Entry(symbol: string, income: real, at: int)

  /** The funding rows of one account on one exchange, by transaction id. */
  type Ledger = map<string, Entry>

  /** The exchange's own tag wins over the symbol that was asked for. */
  function StoredSymbol(tag: Option<string>, symbol: string): string {
    if tag.Some? && tag.value != "" then tag.value else symbol
  }

  function Stored(r: Income, symbol: string, now: int): Entry {
    Entry(StoredSymbol(r.symbol, symbol), r.income, if r.time.Some? then r.time.value else now)
  }

  function Upsert(ledger: Ledger, rows: seq<Income>, symbol: string, now: int): Ledger {
    if rows == [] then ledger
    else
      var before := Upsert(ledger, rows[..|rows| - 1], symbol, now);
      var r := rows[|rows| - 1];
      if r.tranId == "" then before else before[r.tranId := Stored(r, symbol, now)]
  }

  predicate IsAt(e: Entry, symbol: string, time: int) {
    e.symbol == symbol && e.at == time
  }

  predicate NotAfter(e: Entry, symbol: string, time: int) {
    e.symbol == symbol ==> e.at <= time
  }

  /** The newest time among the given ledger rows that carry the symbol. */
  ghost function MaxOver(keys: set<string>, ledger: Ledger, symbol: string): (m: Option<int>)
    requires keys <= ledger.Keys
    ensures m.None? <==> forall k :: k in keys ==> ledger[k].symbol != symbol
    ensures m.Some? ==> exists k :: k in keys && ledger[k].symbol == symbol && ledger[k].at == m.value
    ensures m.Some? ==> forall k :: k in keys && ledger[k].symbol == symbol ==> ledger[k].at <= m.value
  {
    if keys == {} then None
    else
      var k :| k in keys;
      var rest := MaxOver(keys - {k}, ledger, symbol);
      if ledger[k].symbol != symbol then rest
      else if rest.Some? && rest.value >= ledger[k].at then rest
      else Some(ledger[k].at)
  }

  ghost function SymbolMax(ledger: Ledger, symbol: string): Option<int> {
    MaxOver(ledger.Keys, ledger, symbol)
  }

  ghost function Since(ledger: Ledger, symbol: string, now: int): int {
    var last := SymbolMax(ledger, symbol);
    if last.None? then now - BACKFILL else last.value - OVERLAP
  }

  function Latest(rows: seq<Income>): Option<int> {
    if rows == [] then None
    else
      var before := Latest(rows[..|rows| - 1]);
      var t := rows[|rows| - 1].time;
      if t.None? then before
      else if before.Some? && before.value >= t.value then before else t
  }

  /** The exchange as the sync sees it: the page it returns for a start time. */
  type Feed = int -> seq<Income>

  /** Where the next request starts, unless this page was the last one worth asking for. */
  function NextCursor(page: seq<Income>, since: int, limit: nat): Option<int> {
    var latest := Latest(page);
    if latest.None? || |page| < limit || latest.value <= since then None else Some(latest.value + 1)
  }

  /** The paging loop with `rounds` requests left. */
  function SyncFrom(ledger: Ledger, feed: Feed, since: int, limit: nat, symbol: string, now: int, rounds: nat): Ledger
    decreases rounds
  {
    if rounds == 0 || feed(since) == [] then ledger
    else
      var after := Upsert(ledger, feed(since), symbol, now);
      var next := NextCursor(feed(since), since, limit);
      if next.None? then after else SyncFrom(after, feed, next.value, limit, symbol, now, rounds - 1)
  }

  /** The ledger after one sync. */
  ghost function Synced(ledger: Ledger, feed: Feed, limit: nat, symbol: string, now: int): Ledger {
    SyncFrom(ledger, feed, Since(ledger, symbol, now), limit, symbol, now, MAX_PAGES)
  }

  function Writable(rows: seq<Income>): nat {
    if rows == [] then 0 else Writable(rows[..|rows| - 1]) + if rows[|rows| - 1].tranId == "" then 0 else 1
  }

  /** How many rows the paging loop writes, repeats included. */
  function WrittenFrom(feed: Feed, since: int, limit: nat, rounds: nat): nat
    decreases rounds
  {
    if rounds == 0 || feed(since) == [] then 0
    else
      var next := NextCursor(feed(since), since, limit);
      Writable(feed(since)) + if next.None? then 0 else WrittenFrom(feed, next.value, limit, rounds - 1)
  }

  /** The account's ledger and the sync service over it. */
  class IncomeSync {
    const limit: nat
    var ledger: Ledger

    constructor (limit: nat)
      ensures this.limit == limit && ledger == map[]
    {
      this.limit := limit;
      ledger := map[];
    }

    method ComputeSince(symbol: string, now: int) returns (since: int)
      ensures since == Since(ledger, symbol, now)
    {
      var last: Option<int> := None;
      var todo := ledger.Keys;
      while todo != {}
        invariant todo <= ledger.Keys
        invariant last.None? <==> forall k :: k in ledger.Keys - todo ==> ledger[k].symbol != symbol
        invariant last.Some? ==> exists k :: k in ledger.Keys - todo && IsAt(ledger[k], symbol, last.value)
        invariant last.Some? ==> forall k :: k in ledger.Keys - todo ==> NotAfter(ledger[k], symbol, last.value)
        decreases |todo|
      {
        var k :| k in todo;
        todo := todo - {k};
        if ledger[k].symbol == symbol && (last.None? || last.value < ledger[k].at) { last := Some(ledger[k].at); }
      }
      assert ledger.Keys - todo == ledger.Keys;
      since := if last.None? then now - BACKFILL else last.value - OVERLAP;
    }

    method UpsertIncomeRows(rows: seq<Income>, symbol: string, now: int) returns (written: nat)
      modifies this
      ensures ledger == Upsert(old(ledger), rows, symbol, now)
      ensures written == Writable(rows)
    {
      written := 0;
      for i := 0 to |rows|
        invariant ledger == Upsert(old(ledger), rows[..i], symbol, now)
        invariant written == Writable(rows[..i])
      {
        assert rows[..i + 1][..i] == rows[..i];
        if rows[i].tranId != "" {
          var tag := if rows[i].symbol.Some? && rows[i].symbol.value != "" then rows[i].symbol.value else symbol;
          var at := if rows[i].time.Some? then rows[i].time.value else now;
          ledger := ledger[rows[i].tranId := Entry(tag, rows[i].income, at)];
          written := written + 1;
        }
      }
      assert rows[..|rows|] == rows;
    }

    method SyncSymbolIncome(feed: Feed, symbol: string, now: int) returns (written: nat)
      modifies this
      ensures ledger == Synced(old(ledger), feed, limit, symbol, now)
      ensures written == WrittenFrom(feed, Since(old(ledger), symbol, now), limit, MAX_PAGES)
    {
      var since := ComputeSince(symbol, now);
      written := 0;
      var round := 0;
      while round < MAX_PAGES
        invariant 0 <= round <= MAX_PAGES
        invariant SyncFrom(ledger, feed, since, limit, symbol, now, MAX_PAGES - round)
               == Synced(old(ledger), feed, limit, symbol, now)
        invariant written + WrittenFrom(feed, since, limit, MAX_PAGES - round)
               == WrittenFrom(feed, Since(old(ledger), symbol, now), limit, MAX_PAGES)
      {
        var rows := feed(since);
        if rows == [] { break; }
        var n := UpsertIncomeRows(rows, symbol, now);
        written := written + n;
        var latest := Latest(rows);
        if latest.None? || |rows| < limit { break; }
        if latest.value <= since { break; }
        since, round := latest.value + 1, round + 1;
      }
    }
  }

  // ----- What one sync writes -----------------------------------------------------------

  function RowsOf(page: seq<Income>): set<Income> {
    set r | r in page
  }

  /** Every row carries a time and an id, times are distinct, and the id identifies the row. */
  predicate Clean(exchange: set<Income>) {
    && (forall r :: r in exchange ==> r.time.Some? && r.tranId != "")
    && (forall r, r' :: r in exchange && r' in exchange && r.time == r'.time ==> r == r')
    && IdsIdentify(exchange)
  }

  predicate IdsIdentify(rows: set<Income>) {
    forall r, r' :: r in rows && r' in rows && r.tranId == r'.tranId ==> r == r'
  }

  predicate Ascending(page: seq<Income>)
    requires forall r :: r in page ==> r.time.Some?
  {
    forall i, j :: 0 <= i < j < |page| ==> page[i].time.value < page[j].time.value
  }

  /** An oldest-first page: nothing between the start time and its last row is left out. */
  predicate IsPage(page: seq<Income>, exchange: set<Income>, since: int, limit: nat)
    requires Clean(exchange)
  {
    && |page| <= limit
    && (forall r :: r in page ==> r in exchange && r.time.value >= since)
    && Ascending(page)
    && (forall r :: r in exchange && r.time.value >= since && r !in page
          ==> |page| == limit && forall p :: p in page ==> p.time.value < r.time.value)
  }

  /** This feed answers every request from this exchange. */
  ghost predicate Serves(feed: Feed, exchange: set<Income>, limit: nat)
    requires Clean(exchange)
  {
    forall since :: ServesAt(feed, exchange, since, limit)
  }

  predicate ServesAt(feed: Feed, exchange: set<Income>, since: int, limit: nat)
    requires Clean(exchange)
  {
    IsPage(feed(since), exchange, since, limit)
  }

  /** The later ledger is the earlier one with these rows written into it. */
  ghost predicate Merged(before: Ledger, after: Ledger, rows: set<Income>, symbol: string, now: int) {
    && (forall r :: r in rows ==> r.tranId in after && after[r.tranId] == Stored(r, symbol, now))
    && (forall id :: id in before ==> id in after)
    && (forall id :: id in after && Untouched(id, rows) ==> id in before && before[id] == after[id])
  }

  predicate Untouched(id: string, rows: set<Income>) {
    forall r :: r in rows ==> r.tranId != id
  }

  lemma MergeOne(before: Ledger, after: Ledger, rows: set<Income>, r: Income, symbol: string, now: int)
    requires Merged(before, after, rows, symbol, now) && IdsIdentify(rows + {r})
    ensures Merged(before, after[r.tranId := Stored(r, symbol, now)], rows + {r}, symbol, now)
  {
    var more := after[r.tranId := Stored(r, symbol, now)];
    forall id | id in more && Untouched(id, rows + {r}) ensures id in before && before[id] == more[id] {
      assert r in rows + {r} && Untouched(id, rows);
    }
  }

  lemma {:induction false} UpsertMerges(ledger: Ledger, page: seq<Income>, symbol: string, now: int)
    requires IdsIdentify(RowsOf(page)) && forall r :: r in page ==> r.tranId != ""
    ensures Merged(ledger, Upsert(ledger, page, symbol, now), RowsOf(page), symbol, now)
  {
    if page != [] {
      var init, last := page[..|page| - 1], page[|page| - 1];
      assert page == init + [last];
      assert RowsOf(page) == RowsOf(init) + {last};
      UpsertMerges(ledger, init, symbol, now);
      MergeOne(ledger, Upsert(ledger, init, symbol, now), RowsOf(init), last, symbol, now);
    }
  }

  lemma MergesCompose(a: Ledger, b: Ledger, c: Ledger, v: set<Income>, w: set<Income>, symbol: string, now: int)
    requires IdsIdentify(v + w) && Merged(a, b, v, symbol, now) && Merged(b, c, w, symbol, now)
    ensures Merged(a, c, v + w, symbol, now)
  {}

  lemma {:induction false} PageSize(page: seq<Income>)
    requires (forall r :: r in page ==> r.time.Some?) && Ascending(page)
    ensures |RowsOf(page)| == |page|
  {
    if page != [] {
      var init, last := page[..|page| - 1], page[|page| - 1];
      assert page == init + [last];
      PageSize(init);
      assert last !in init;
      assert RowsOf(page) == RowsOf(init) + {last};
    }
  }

  lemma {:induction false} LatestIsLast(page: seq<Income>)
    requires page != [] && (forall r :: r in page ==> r.time.Some?) && Ascending(page)
    ensures Latest(page) == page[|page| - 1].time
  {
    if |page| > 1 { LatestIsLast(page[..|page| - 1]); }
  }

  /** The most rows a number of requests can return. */
  function Capacity(limit: nat, rounds: nat): nat {
    if rounds == 0 then 0 else limit + Capacity(limit, rounds - 1)
  }

  /** These rows are the oldest ones from a time on: none is skipped. */
  predicate Oldest(rows: set<Income>, exchange: set<Income>, since: int)
    requires Clean(exchange)
  {
    && rows <= exchange
    && (forall r :: r in rows ==> r.time.value >= since)
    && (forall r, w :: r in exchange && w in rows && since <= r.time.value <= w.time.value ==> r in rows)
  }

  predicate Exhausted(rows: set<Income>, exchange: set<Income>, since: int)
    requires Clean(exchange)
  {
    forall r :: r in exchange && r.time.value >= since ==> r in rows
  }

  /** From the start time on, the page holds exactly the rows before the next cursor. */
  predicate SplitsAt(page: seq<Income>, exchange: set<Income>, since: int, next: int)
    requires Clean(exchange)
  {
    forall r :: r in exchange && r.time.value >= since ==> (r in page <==> r.time.value < next)
  }

  /** A full page moves the cursor right behind its last row. */
  lemma PageFacts(page: seq<Income>, exchange: set<Income>, since: int, limit: nat)
    requires Clean(exchange) && limit >= 2 && IsPage(page, exchange, since, limit)
    ensures Oldest(RowsOf(page), exchange, since) && |RowsOf(page)| == |page|
    ensures NextCursor(page, since, limit).None? <==> |page| < limit
    ensures |page| < limit ==> Exhausted(RowsOf(page), exchange, since)
    ensures |page| == limit ==> SplitsAt(page, exchange, since, NextCursor(page, since, limit).value)
  {
    PageSize(page);
    if page != [] {
      LatestIsLast(page);
      assert page[|page| - 1] in page && page[0] in page;
      forall r | r in page ensures r.time.value <= page[|page| - 1].time.value {
        var i :| 0 <= i < |page| && page[i] == r;
      }
    }
  }

  /** What a sync wrote: the oldest rows from its start on, all there are or all it can carry. */
  ghost predicate Wrote(before: Ledger, after: Ledger, rows: set<Income>, exchange: set<Income>, since: int,
                        capacity: nat, symbol: string, now: int)
    requires Clean(exchange)
  {
    && Merged(before, after, rows, symbol, now)
    && Oldest(rows, exchange, since)
    && Complete(rows, exchange, since, capacity)
  }

  predicate Complete(rows: set<Income>, exchange: set<Income>, since: int, capacity: nat)
    requires Clean(exchange)
  {
    Exhausted(rows, exchange, since) || |rows| == capacity
  }

  lemma LastPage(ledger: Ledger, page: seq<Income>, exchange: set<Income>, since: int, limit: nat, capacity: nat,
                 symbol: string, now: int)
    requires Clean(exchange) && limit >= 2 && IsPage(page, exchange, since, limit)
    requires NextCursor(page, since, limit).None?
    ensures Wrote(ledger, Upsert(ledger, page, symbol, now), RowsOf(page), exchange, since, capacity, symbol, now)
  {
    PageFacts(page, exchange, since, limit);
    UpsertMerges(ledger, page, symbol, now);
  }

  lemma FullPage(ledger: Ledger, page: seq<Income>, last: Ledger, more: set<Income>, exchange: set<Income>, since: int,
                 limit: nat, capacity: nat, symbol: string, now: int)
    requires Clean(exchange) && limit >= 2 && IsPage(page, exchange, since, limit)
    requires NextCursor(page, since, limit).Some?
    requires Wrote(Upsert(ledger, page, symbol, now), last, more, exchange, NextCursor(page, since, limit).value,
                   capacity, symbol, now)
    ensures Wrote(ledger, last, RowsOf(page) + more, exchange, since, limit + capacity, symbol, now)
  {
    JoinOldest(page, more, exchange, since, limit);
    JoinMerged(ledger, page, last, more, exchange, symbol, now);
  }

  lemma JoinMerged(ledger: Ledger, page: seq<Income>, last: Ledger, more: set<Income>, exchange: set<Income>,
                   symbol: string, now: int)
    requires Clean(exchange) && RowsOf(page) <= exchange && more <= exchange
    requires Merged(Upsert(ledger, page, symbol, now), last, more, symbol, now)
    ensures Merged(ledger, last, RowsOf(page) + more, symbol, now)
  {
    assert forall r :: r in page ==> r in RowsOf(page);
    UpsertMerges(ledger, page, symbol, now);
    MergesCompose(ledger, Upsert(ledger, page, symbol, now), last, RowsOf(page), more, symbol, now);
  }

  lemma NoRequests(ledger: Ledger, exchange: set<Income>, since: int, symbol: string, now: int)
    requires Clean(exchange)
    ensures Wrote(ledger, ledger, {}, exchange, since, 0, symbol, now)
  {}

  /** One request of the paging loop: a last page is written and ends it, a full page goes on behind itself. */
  lemma SyncUnfolds(ledger: Ledger, feed: Feed, since: int, limit: nat, symbol: string, now: int, rounds: nat)
    requires rounds > 0
    ensures var after, next := Upsert(ledger, feed(since), symbol, now), NextCursor(feed(since), since, limit);
            SyncFrom(ledger, feed, since, limit, symbol, now, rounds)
            == if next.None? then after else SyncFrom(after, feed, next.value, limit, symbol, now, rounds - 1)
  {}

  /**
   * However the pages fall, one sync writes an unbroken run of the oldest rows from its
   * start time on: all there are, or as many as its requests can carry.
   */
  lemma {:induction false} SyncWritesOldest(ledger: Ledger, feed: Feed, exchange: set<Income>, since: int, limit: nat,
                                            symbol: string, now: int, rounds: nat) returns (rows: set<Income>)
    requires Clean(exchange) && limit >= 2 && Serves(feed, exchange, limit)
    ensures Wrote(ledger, SyncFrom(ledger, feed, since, limit, symbol, now, rounds), rows, exchange, since,
                  Capacity(limit, rounds), symbol, now)
    decreases rounds
  {
    if rounds == 0 {
      rows := {};
      NoRequests(ledger, exchange, since, symbol, now);
    } else {
      var page := feed(since);
      assert ServesAt(feed, exchange, since, limit);
      var next := NextCursor(page, since, limit);
      SyncUnfolds(ledger, feed, since, limit, symbol, now, rounds);
      if next.None? {
        rows := RowsOf(page);
        LastPage(ledger, page, exchange, since, limit, Capacity(limit, rounds), symbol, now);
      } else {
        var after := Upsert(ledger, page, symbol, now);
        var more := SyncWritesOldest(after, feed, exchange, next.value, limit, symbol, now, rounds - 1);
        FullPage(ledger, page, SyncFrom(after, feed, next.value, limit, symbol, now, rounds - 1), more, exchange,
                 since, limit, Capacity(limit, rounds - 1), symbol, now);
        rows := RowsOf(page) + more;
      }
    }
  }

  /** The count that a sync reports is the number of those rows. */
  lemma {:induction false} SyncCountsItsRows(feed: Feed, exchange: set<Income>, since: int, limit: nat, rounds: nat)
    returns (rows: set<Income>)
    requires Clean(exchange) && limit >= 2 && Serves(feed, exchange, limit)
    ensures Oldest(rows, exchange, since) && Complete(rows, exchange, since, Capacity(limit, rounds))
    ensures WrittenFrom(feed, since, limit, rounds) == |rows|
    decreases rounds
  {
    if rounds == 0 {
      rows := {};
    } else {
      var page := feed(since);
      assert ServesAt(feed, exchange, since, limit);
      PageCount(page, exchange, since, limit);
      PageFacts(page, exchange, since, limit);
      var next := NextCursor(page, since, limit);
      rows := RowsOf(page);
      if next.Some? {
        var more := SyncCountsItsRows(feed, exchange, next.value, limit, rounds - 1);
        JoinOldest(page, more, exchange, since, limit);
        rows := RowsOf(page) + more;
      }
    }
  }

  /** A clean page is written in full. */
  lemma PageCount(page: seq<Income>, exchange: set<Income>, since: int, limit: nat)
    requires Clean(exchange) && limit >= 2 && IsPage(page, exchange, since, limit)
    ensures Writable(page) == |RowsOf(page)| == |page| && (NextCursor(page, since, limit).None? <==> |page| < limit)
  {
    PageFacts(page, exchange, since, limit);
    AllWritable(page);
  }

  lemma {:induction false} AllWritable(page: seq<Income>)
    requires forall r :: r in page ==> r.tranId != ""
    ensures Writable(page) == |page|
  {
    if page != [] { AllWritable(page[..|page| - 1]); }
  }

  lemma JoinOldest(page: seq<Income>, more: set<Income>, exchange: set<Income>, since: int, limit: nat)
    requires Clean(exchange) && limit >= 2 && IsPage(page, exchange, since, limit)
    requires NextCursor(page, since, limit).Some? && Oldest(more, exchange, NextCursor(page, since, limit).value)
    ensures Oldest(RowsOf(page) + more, exchange, since)
    ensures |RowsOf(page) + more| == limit + |more|
    ensures Exhausted(more, exchange, NextCursor(page, since, limit).value)
            ==> Exhausted(RowsOf(page) + more, exchange, since)
  {
    PageFacts(page, exchange, since, limit);
    assert RowsOf(page) !! more;
  }

  // ----- Runs of syncs ------------------------------------------------------------------

  /** One sync: the rows the exchange shows, how it pages them, and the time. */
  datatype Sync = Sync(exchange: set<Income>, feed: Feed, now: int)

  ghost function Step(ledger: Ledger, y: Sync, limit: nat, symbol: string): Ledger {
    Synced(ledger, y.feed, limit, symbol, y.now)
  }

  ghost function After(run: seq<Sync>, limit: nat, symbol: string): Ledger {
    if run == [] then map[] else Step(After(run[..|run| - 1], limit, symbol), run[|run| - 1], limit, symbol)
  }

  function BackfillStart(y: Sync): int {
    y.now - BACKFILL
  }

  predicate Holds(ledger: Ledger, r: Income, symbol: string) {
    r.tranId in ledger && ledger[r.tranId] == Stored(r, symbol, 0)
  }

  /** No visible row between a start time and any ledger row's time is missing. */
  predicate NoGap(ledger: Ledger, origin: int, exchange: set<Income>, symbol: string)
    requires Clean(exchange)
  {
    forall r, id :: r in exchange && id in ledger && origin <= r.time.value <= ledger[id].at
      ==> Holds(ledger, r, symbol)
  }

  /** Measured from the start of the very first backfill, nothing that the exchange shows now is missing. */
  ghost predicate GapFree(run: seq<Sync>, limit: nat, symbol: string)
    requires run != []
  {
    var exchange := run[|run| - 1].exchange;
    Clean(exchange) && NoGap(After(run, limit, symbol), BackfillStart(run[0]), exchange, symbol)
  }

  /** After each sync of the run. */
  ghost predicate AlwaysGapFree(run: seq<Sync>, limit: nat, symbol: string) {
    forall n :: 1 <= n <= |run| ==> GapFree(run[..n], limit, symbol)
  }

  /** Any overlap window holds fewer rows than one sync can carry. */
  ghost predicate Sparse(exchange: set<Income>, limit: nat)
    requires Clean(exchange)
  {
    forall rows: set<Income>, from :: rows <= exchange && Within(rows, from)
      ==> |rows| < Capacity(limit, MAX_PAGES)
  }

  ghost predicate Within(rows: set<Income>, from: int) {
    forall r :: r in rows ==> r.time.Some? && from <= r.time.value <= from + OVERLAP
  }

  /** The exchange only adds rows, and none more than the overlap late. */
  predicate Evolves(earlier: set<Income>, later: set<Income>)
    requires Clean(earlier) && Clean(later)
  {
    && earlier <= later
    && (forall r, p :: r in later && r !in earlier && p in earlier ==> r.time.value >= p.time.value - OVERLAP)
  }

  /** A run against a clean exchange that evolves as assumed, on a clock that does not go back. */
  ghost predicate Sound(run: seq<Sync>, world: set<Income>, limit: nat) {
    && Clean(world)
    && (forall i :: 0 <= i < |run| ==> run[i].exchange <= world)
    && (forall i :: 0 <= i < |run| ==> Serves(run[i].feed, run[i].exchange, limit) && Sparse(run[i].exchange, limit))
    && (forall i :: 0 <= i < |run| - 1 ==> Follows(run[i], run[i + 1]))
  }

  predicate Follows(y: Sync, next: Sync)
    requires Clean(y.exchange) && Clean(next.exchange)
  {
    Evolves(y.exchange, next.exchange) && y.now <= next.now
  }

  /** Every row ends up stored under the symbol that the cursor looks for. */
  predicate Tagged(rows: set<Income>, symbol: string) {
    forall r :: r in rows ==> StoredSymbol(r.symbol, symbol) == symbol
  }

  /** Every ledger row was written from a visible row. */
  predicate FromExchange(ledger: Ledger, exchange: set<Income>, symbol: string) {
    forall id :: id in ledger ==> exists r :: r in exchange && r.tranId == id && ledger[id] == Stored(r, symbol, 0)
  }

  lemma CapacityPositive(limit: nat)
    requires limit >= 2
    ensures Capacity(limit, MAX_PAGES) > 0
  {}

  lemma SourcesKept(before: Ledger, after: Ledger, rows: set<Income>, earlier: set<Income>, exchange: set<Income>,
                    symbol: string, now: int)
    requires Clean(exchange) && earlier <= exchange && rows <= exchange
    requires FromExchange(before, earlier, symbol) && Merged(before, after, rows, symbol, now)
    ensures FromExchange(after, exchange, symbol)
  {
    forall id | id in after ensures exists r :: r in exchange && r.tranId == id && after[id] == Stored(r, symbol, 0) {
      if r :| r in rows && r.tranId == id {
        assert after[id] == Stored(r, symbol, 0);
      } else {
        assert before[id] == after[id];
      }
    }
  }

  /** Every sync keeps that the ledger is made of visible rows. */
  lemma {:induction false} LedgerIsVisible(run: seq<Sync>, world: set<Income>, limit: nat, symbol: string)
    requires run != [] && limit >= 2 && Sound(run, world, limit)
    ensures Clean(run[|run| - 1].exchange)
    ensures FromExchange(After(run, limit, symbol), run[|run| - 1].exchange, symbol)
  {
    var init, y := run[..|run| - 1], run[|run| - 1];
    LastSyncIsSound(run, world, limit);
    var before := After(init, limit, symbol);
    var earlier: set<Income> := {};
    if init != [] {
      earlier := run[|run| - 2].exchange;
      SoundPrefix(run, world, limit);
      LastStepIsSound(run, world, limit);
      LedgerIsVisible(init, world, limit, symbol);
      assert init[|init| - 1] == run[|run| - 2];
    }
    var since := Since(before, symbol, y.now);
    var rows := SyncWritesOldest(before, y.feed, y.exchange, since, limit, symbol, y.now, MAX_PAGES);
    SourcesKept(before, Step(before, y, limit, symbol), rows, earlier, y.exchange, symbol, y.now);
  }

  lemma LastSyncIsSound(run: seq<Sync>, world: set<Income>, limit: nat)
    requires run != [] && Sound(run, world, limit)
    ensures var y := run[|run| - 1];
            y.exchange <= world && Clean(y.exchange) && Serves(y.feed, y.exchange, limit) && Sparse(y.exchange, limit)
  {}

  lemma LastStepIsSound(run: seq<Sync>, world: set<Income>, limit: nat)
    requires |run| >= 2 && Sound(run, world, limit)
    ensures var p, y := run[|run| - 2], run[|run| - 1];
            Clean(p.exchange) && Clean(y.exchange) && Evolves(p.exchange, y.exchange) && p.now <= y.now
  {
    var i := |run| - 2;
    assert Follows(run[i], run[i + 1]);
  }

  lemma SoundPrefix(run: seq<Sync>, world: set<Income>, limit: nat)
    requires run != [] && Sound(run, world, limit)
    ensures Sound(run[..|run| - 1], world, limit)
  {}

  lemma {:induction false} SoundUpTo(run: seq<Sync>, world: set<Income>, limit: nat, n: nat)
    requires n <= |run| && Sound(run, world, limit)
    ensures Sound(run[..n], world, limit)
    decreases |run| - n
  {
    if n < |run| {
      SoundUpTo(run, world, limit, n + 1);
      SoundPrefix(run[..n + 1], world, limit);
      assert run[..n + 1][..n] == run[..n];
    } else {
      assert run[..n] == run;
    }
  }

  // ----- While the ledger is empty ------------------------------------------------------

  /** The exchange shows a row from this sync's backfill start on. */
  predicate Catches(y: Sync)
    requires Clean(y.exchange)
  {
    exists r :: r in y.exchange && r.time.value >= BackfillStart(y)
  }

  /** A sync of an empty ledger leaves it empty exactly when it catches nothing. */
  lemma FirstRows(y: Sync, limit: nat, symbol: string) returns (rows: set<Income>)
    requires Clean(y.exchange) && limit >= 2 && Serves(y.feed, y.exchange, limit)
    ensures Merged(map[], Step(map[], y, limit, symbol), rows, symbol, y.now)
    ensures Oldest(rows, y.exchange, BackfillStart(y))
    ensures Step(map[], y, limit, symbol) == map[] <==> !Catches(y)
  {
    assert Since(map[], symbol, y.now) == BackfillStart(y);
    rows := SyncWritesOldest(map[], y.feed, y.exchange, BackfillStart(y), limit, symbol, y.now, MAX_PAGES);
    CapacityPositive(limit);
    RowsMakeTheLedger(Step(map[], y, limit, symbol), rows, symbol, y.now);
  }

  lemma RowsMakeTheLedger(after: Ledger, rows: set<Income>, symbol: string, now: int)
    requires Merged(map[], after, rows, symbol, now)
    ensures rows == {} <==> after == map[]
  {
    if rows == {} {
      assert forall id :: id !in after;
    } else {
      var r :| r in rows;
      assert r.tranId in after;
    }
  }

  /** Rows once stored stay stored. */
  lemma StepKeepsIds(ledger: Ledger, y: Sync, limit: nat, symbol: string)
    requires Clean(y.exchange) && limit >= 2 && Serves(y.feed, y.exchange, limit)
    ensures ledger != map[] ==> Step(ledger, y, limit, symbol) != map[]
  {
    var since := Since(ledger, symbol, y.now);
    var rows := SyncWritesOldest(ledger, y.feed, y.exchange, since, limit, symbol, y.now, MAX_PAGES);
    if ledger != map[] {
      var id :| id in ledger;
      assert id in Step(ledger, y, limit, symbol);
    }
  }

  predicate AllClean(run: seq<Sync>) {
    forall i :: 0 <= i < |run| ==> Clean(run[i].exchange)
  }

  /** This sync is the first of the run that catches a row. */
  predicate FirstCatch(run: seq<Sync>, f: nat)
    requires f < |run| && AllClean(run)
  {
    Catches(run[f]) && forall i :: 0 <= i < f ==> !Catches(run[i])
  }

  /** The ledger stays empty for as long as no sync catches a row. */
  lemma {:induction false} EmptyUntilFirstCatch(run: seq<Sync>, world: set<Income>, limit: nat, symbol: string)
    requires limit >= 2 && Sound(run, world, limit)
    ensures After(run, limit, symbol) == map[] <==> forall i :: 0 <= i < |run| ==> !Catches(run[i])
  {
    if run != [] {
      var init, y := run[..|run| - 1], run[|run| - 1];
      SoundPrefix(run, world, limit);
      LastSyncIsSound(run, world, limit);
      EmptyUntilFirstCatch(init, world, limit, symbol);
      if After(init, limit, symbol) == map[] {
        var rows := FirstRows(y, limit, symbol);
      } else {
        StepKeepsIds(After(init, limit, symbol), y, limit, symbol);
      }
    }
  }

  /** A row visible at the first catch lies between the run's first start and that sync's own start. */
  predicate MissedAt(run: seq<Sync>, f: nat)
    requires f < |run| && Clean(run[f].exchange)
  {
    Between(run[f].exchange, BackfillStart(run[0]), BackfillStart(run[f]))
  }

  predicate Between(exchange: set<Income>, origin: int, since: int)
    requires Clean(exchange)
  {
    exists r :: r in exchange && origin <= r.time.value < since
  }

  /** Nothing slipped by while the ledger was still empty and every sync restarted the backfill. */
  predicate NothingMissed(run: seq<Sync>) {
    AllClean(run) && forall f :: 0 <= f < |run| && FirstCatch(run, f) ==> !MissedAt(run, f)
  }

  lemma SoundIsClean(run: seq<Sync>, world: set<Income>, limit: nat)
    requires Sound(run, world, limit)
    ensures AllClean(run)
  {}

  lemma MissedRowIsAGap(after: Ledger, rows: set<Income>, exchange: set<Income>, origin: int, since: int,
                        symbol: string,
                        now: int, r: Income)
    requires Clean(exchange) && Merged(map[], after, rows, symbol, now) && Oldest(rows, exchange, since) && rows != {}
    requires r in exchange && origin <= r.time.value < since
    ensures !NoGap(after, origin, exchange, symbol)
  {
    var w :| w in rows;
    assert after[w.tranId].at == w.time.value >= since;
    assert Untouched(r.tranId, rows);
  }

  lemma FirstRowsLeaveNoGap(after: Ledger, rows: set<Income>, exchange: set<Income>, origin: int, since: int,
                            symbol: string, now: int)
    requires Clean(exchange) && Merged(map[], after, rows, symbol, now) && Oldest(rows, exchange, since)
    requires !Between(exchange, origin, since)
    ensures NoGap(after, origin, exchange, symbol)
  {
    forall r, id | r in exchange && id in after && origin <= r.time.value <= after[id].at
      ensures Holds(after, r, symbol)
    {
      assert !Untouched(id, rows);
      var w :| w in rows && w.tranId == id;
      assert r.time.value >= since;
    }
  }

  /** The first rows leave no gap behind an earlier start exactly when none was missed. */
  lemma FirstRowsGapIff(after: Ledger, rows: set<Income>, exchange: set<Income>, origin: int, since: int,
                        symbol: string,
                        now: int)
    requires Clean(exchange) && Merged(map[], after, rows, symbol, now) && Oldest(rows, exchange, since) && rows != {}
    ensures NoGap(after, origin, exchange, symbol) <==> !Between(exchange, origin, since)
  {
    if Between(exchange, origin, since) {
      var r :| r in exchange && origin <= r.time.value < since;
      MissedRowIsAGap(after, rows, exchange, origin, since, symbol, now, r);
    } else {
      FirstRowsLeaveNoGap(after, rows, exchange, origin, since, symbol, now);
    }
  }

  // ----- Once the ledger holds rows -----------------------------------------------------

  /** A sync with an overlap start reaches past the overlap or to the exchange's end. */
  lemma ReachesPastOverlap(rows: set<Income>, exchange: set<Income>, since: int, limit: nat)
    requires Clean(exchange) && Sparse(exchange, limit) && Oldest(rows, exchange, since)
    requires Exhausted(rows, exchange, since) || |rows| == Capacity(limit, MAX_PAGES)
    ensures Reaches(rows, exchange, since)
  {
    if !Exhausted(rows, exchange, since) {
      assert !Within(rows, since);
    }
  }

  predicate Reaches(rows: set<Income>, exchange: set<Income>, since: int)
    requires Clean(exchange)
  {
    Exhausted(rows, exchange, since) || exists w :: w in rows && w.time.Some? && w.time.value > since + OVERLAP
  }

  predicate AllUpTo(ledger: Ledger, time: int) {
    forall id :: id in ledger ==> ledger[id].at <= time
  }

  /** Between the cursor and any ledger row's time, everything visible was fetched. */
  lemma CursorOnwards(before: Ledger, after: Ledger, rows: set<Income>, exchange: set<Income>, since: int,
                      symbol: string, now: int, r: Income, id: string)
    requires Clean(exchange) && Oldest(rows, exchange, since) && Reaches(rows, exchange, since)
    requires Merged(before, after, rows, symbol, now) && AllUpTo(before, since + OVERLAP)
    requires r in exchange && id in after && since <= r.time.value <= after[id].at
    ensures r in rows
  {
    if w :| w in rows && w.tranId == id {
      assert after[id] == Stored(w, symbol, now);
    } else {
      assert after[id] == before[id];
    }
  }

  /** The newest ledger row, which the cursor is computed from. */
  predicate IsNewest(newest: Income, ledger: Ledger, exchange: set<Income>, since: int, symbol: string) {
    && newest in exchange && newest.time.Some? && newest.time.value == since + OVERLAP && Holds(ledger, newest, symbol)
    && AllUpTo(ledger, since + OVERLAP)
  }

  lemma NextRowsLeaveNoGap(before: Ledger, after: Ledger, origin: int, rows: set<Income>, earlier: set<Income>,
                           exchange: set<Income>, since: int, newest: Income, symbol: string, now: int)
    requires Clean(earlier) && Clean(exchange) && Evolves(earlier, exchange)
    requires Oldest(rows, exchange, since) && Reaches(rows, exchange, since)
    requires Merged(before, after, rows, symbol, now) && IsNewest(newest, before, earlier, since, symbol)
    requires NoGap(before, origin, earlier, symbol)
    ensures NoGap(after, origin, exchange, symbol)
  {
    forall r, id | r in exchange && id in after && origin <= r.time.value <= after[id].at
      ensures Holds(after, r, symbol)
    {
      if r.time.value >= since {
        CursorOnwards(before, after, rows, exchange, since, symbol, now, r, id);
      } else {
        assert r in earlier;
        assert before[newest.tranId].at == since + OVERLAP;
        UnfetchedRowIsKept(before, after, rows, exchange, since, symbol, now, r);
      }
    }
  }

  lemma UnfetchedRowIsKept(before: Ledger, after: Ledger, rows: set<Income>, exchange: set<Income>, since: int,
                           symbol: string, now: int, r: Income)
    requires Clean(exchange) && Oldest(rows, exchange, since) && Merged(before, after, rows, symbol, now)
    requires r in exchange && r.time.value < since && Holds(before, r, symbol)
    ensures Holds(after, r, symbol)
  {
    assert forall w :: w in rows ==> w.tranId != r.tranId;
  }

  /** With every row tagged, the cursor finds the newest ledger row. */
  lemma CursorFindsNewest(ledger: Ledger, exchange: set<Income>, symbol: string, now: int) returns (newest: Income)
    requires Clean(exchange) && Tagged(exchange, symbol) && FromExchange(ledger, exchange, symbol) && ledger != map[]
    ensures IsNewest(newest, ledger, exchange, Since(ledger, symbol, now), symbol)
  {
    assert forall id :: id in ledger ==> ledger[id].symbol == symbol;
    var any :| any in ledger;
    var last := SymbolMax(ledger, symbol);
    var id :| id in ledger && ledger[id].at == last.value;
    newest :| newest in exchange && newest.tranId == id && ledger[id] == Stored(newest, symbol, 0);
  }

  /** A sync of a ledger with rows keeps it gap-free, from whatever start it is measured. */
  lemma NextSyncLeavesNoGap(ledger: Ledger, y: Sync, earlier: set<Income>, origin: int, limit: nat, symbol: string)
    requires Clean(earlier) && Clean(y.exchange) && Evolves(earlier, y.exchange) && limit >= 2
    requires Serves(y.feed, y.exchange, limit) && Sparse(y.exchange, limit) && Tagged(y.exchange, symbol)
    requires FromExchange(ledger, earlier, symbol) && ledger != map[] && NoGap(ledger, origin, earlier, symbol)
    ensures NoGap(Step(ledger, y, limit, symbol), origin, y.exchange, symbol)
  {
    var since := Since(ledger, symbol, y.now);
    var newest := CursorFindsNewest(ledger, earlier, symbol, y.now);
    var rows := SyncWritesOldest(ledger, y.feed, y.exchange, since, limit, symbol, y.now, MAX_PAGES);
    ReachesPastOverlap(rows, y.exchange, since, limit);
    var after := Step(ledger, y, limit, symbol);
    NextRowsLeaveNoGap(ledger, after, origin, rows, earlier, y.exchange, since, newest, symbol, y.now);
  }

  // ----- Exactly when the history is gap-free -------------------------------------------

  /** The first sync that brings rows is gap-free from the run's first start exactly if it missed none. */
  lemma FirstCatchGapIff(run: seq<Sync>, world: set<Income>, limit: nat, symbol: string, f: nat)
    requires limit >= 2 && Sound(run, world, limit) && f < |run| && Clean(run[f].exchange)
    requires After(run[..f], limit, symbol) == map[] && Catches(run[f])
    ensures GapFree(run[..f + 1], limit, symbol) <==> !MissedAt(run, f)
  {
    var y := run[f];
    assert run[..f + 1][..f] == run[..f];
    assert After(run[..f + 1], limit, symbol) == Step(map[], y, limit, symbol);
    var rows := FirstRows(y, limit, symbol);
    RowsMakeTheLedger(Step(map[], y, limit, symbol), rows, symbol, y.now);
    var after := Step(map[], y, limit, symbol);
    FirstRowsGapIff(after, rows, y.exchange, BackfillStart(run[0]), BackfillStart(y), symbol, y.now);
  }

  /** One more sync after a gap-free history. */
  lemma OneMoreSync(run: seq<Sync>, world: set<Income>, limit: nat, symbol: string)
    requires |run| >= 2 && limit >= 2 && Sound(run, world, limit) && Tagged(world, symbol)
    requires After(run[..|run| - 1], limit, symbol) != map[] && GapFree(run[..|run| - 1], limit, symbol)
    ensures GapFree(run, limit, symbol)
  {
    var init, p, y := run[..|run| - 1], run[|run| - 2], run[|run| - 1];
    SoundPrefix(run, world, limit);
    LastSyncIsSound(run, world, limit);
    LastStepIsSound(run, world, limit);
    assert init[|init| - 1] == p && init[0] == run[0];
    LedgerIsVisible(init, world, limit, symbol);
    NextSyncLeavesNoGap(After(init, limit, symbol), y, p.exchange, BackfillStart(run[0]), limit, symbol);
  }

  lemma {:induction false} GapFreeWhenNothingMissed(run: seq<Sync>, world: set<Income>, limit: nat, symbol: string,
                                                    n: nat)
    requires limit >= 2 && Sound(run, world, limit) && Tagged(world, symbol) && NothingMissed(run) && 1 <= n <= |run|
    ensures GapFree(run[..n], limit, symbol)
  {
    var ledger := After(run[..n - 1], limit, symbol);
    SoundUpTo(run, world, limit, n - 1);
    SoundUpTo(run, world, limit, n);
    assert run[..n][..n - 1] == run[..n - 1];
    EmptyUntilFirstCatch(run[..n - 1], world, limit, symbol);
    if ledger != map[] {
      GapFreeWhenNothingMissed(run, world, limit, symbol, n - 1);
      OneMoreSync(run[..n], world, limit, symbol);
    } else if Catches(run[n - 1]) {
      assert FirstCatch(run, n - 1) by {
        assert forall i :: 0 <= i < n - 1 ==> run[..n - 1][i] == run[i];
      }
      FirstCatchGapIff(run, world, limit, symbol, n - 1);
    } else {
      StillNothing(run[..n], world, limit, symbol);
    }
  }

  /** A sync of an empty ledger that catches nothing leaves nothing to be missed. */
  lemma StillNothing(run: seq<Sync>, world: set<Income>, limit: nat, symbol: string)
    requires run != [] && limit >= 2 && Sound(run, world, limit) && Clean(run[|run| - 1].exchange)
    requires After(run[..|run| - 1], limit, symbol) == map[] && !Catches(run[|run| - 1])
    ensures GapFree(run, limit, symbol)
  {
    LastSyncIsSound(run, world, limit);
    var rows := FirstRows(run[|run| - 1], limit, symbol);
  }

  /**
   * Exactly when: after each sync of a run the ledger holds every visible row from the first
   * backfill start up to its newest row, if and only if no row that was visible when the
   * first rows came in lay before that sync's own backfill start.
   */
  lemma AlwaysGapFreeIff(run: seq<Sync>, world: set<Income>, limit: nat, symbol: string)
    requires limit >= 2 && Sound(run, world, limit) && Tagged(world, symbol)
    ensures AlwaysGapFree(run, limit, symbol) <==> NothingMissed(run)
  {
    SoundIsClean(run, world, limit);
    if NothingMissed(run) {
      forall n | 1 <= n <= |run| ensures GapFree(run[..n], limit, symbol) {
        GapFreeWhenNothingMissed(run, world, limit, symbol, n);
      }
    }
    if AlwaysGapFree(run, limit, symbol) {
      forall f | 0 <= f < |run| && FirstCatch(run, f) ensures !MissedAt(run, f) {
        SoundUpTo(run, world, limit, f);
        EmptyUntilFirstCatch(run[..f], world, limit, symbol);
        assert GapFree(run[..f + 1], limit, symbol);
        FirstCatchGapIff(run, world, limit, symbol, f);
      }
    }
  }

  /** No sync up to this one has caught a row, so the ledger is still empty after it. */
  predicate StillEmpty(run: seq<Sync>, i: nat)
    requires i < |run| && AllClean(run)
  {
    forall k :: 0 <= k <= i ==> !Catches(run[k])
  }

  /**
   * What a caller can see to: until rows come in, rows show up at most `late` after their
   * time, and syncs follow each other within the backfill less that lateness.
   */
  predicate Prompt(run: seq<Sync>, late: nat) {
    AllClean(run) && forall i :: 0 <= i < |run| - 1 && StillEmpty(run, i) ==> PromptlyFollows(run[i], run[i + 1], late)
  }

  predicate PromptlyFollows(y: Sync, next: Sync, late: nat)
    requires Clean(y.exchange) && Clean(next.exchange)
  {
    && next.now - y.now <= BACKFILL - late
    && forall r :: r in next.exchange && r !in y.exchange ==> r.time.value >= y.now - late
  }

  /** Going back from the first catch, a row before its start was before every earlier start as well. */
  lemma {:induction false} BeforeEveryStart(run: seq<Sync>, late: nat, f: nat, j: nat, r: Income)
    requires Prompt(run, late) && j <= f < |run|
    requires forall i :: 0 <= i < f ==> !Catches(run[i])
    requires r in run[f].exchange && r.time.value < BackfillStart(run[f])
    ensures r in run[j].exchange && r.time.value < BackfillStart(run[j])
    decreases f - j
  {
    if j < f {
      BeforeEveryStart(run, late, f, j + 1, r);
      assert StillEmpty(run, j);
      assert PromptlyFollows(run[j], run[j + 1], late);
    }
  }

  lemma PromptSyncsMissNothing(run: seq<Sync>, late: nat)
    requires Prompt(run, late)
    ensures NothingMissed(run)
  {
    forall f | 0 <= f < |run| && FirstCatch(run, f) ensures !MissedAt(run, f) {
      forall r | r in run[f].exchange && r.time.value < BackfillStart(run[f])
        ensures r.time.value < BackfillStart(run[0])
      {
        BeforeEveryStart(run, late, f, 0, r);
      }
    }
  }

  /** No gaps: with prompt syncs the ledger holds, after each of them, everything from the first start on. */
  lemma SyncsLeaveNoGap(run: seq<Sync>, world: set<Income>, limit: nat, symbol: string, late: nat)
    requires limit >= 2 && Sound(run, world, limit) && Tagged(world, symbol) && Prompt(run, late)
    ensures AlwaysGapFree(run, limit, symbol)
  {
    PromptSyncsMissNothing(run, late);
    AlwaysGapFreeIff(run, world, limit, symbol);
  }

  // ----- What a further sync does -------------------------------------------------------

  /** A further sync rewrites every ledger row with the values it already has. */
  lemma SyncRewritesNothing(ledger: Ledger, y: Sync, earlier: set<Income>, limit: nat, symbol: string)
    requires Clean(earlier) && Clean(y.exchange) && earlier <= y.exchange && limit >= 2
    requires Serves(y.feed, y.exchange, limit) && FromExchange(ledger, earlier, symbol)
    ensures forall id :: id in ledger ==>
              id in Step(ledger, y, limit, symbol) && Step(ledger, y, limit, symbol)[id] == ledger[id]
  {
    var since := Since(ledger, symbol, y.now);
    var rows := SyncWritesOldest(ledger, y.feed, y.exchange, since, limit, symbol, y.now, MAX_PAGES);
    ValuesKept(ledger, Step(ledger, y, limit, symbol), rows, earlier, y.exchange, symbol, y.now);
  }

  lemma ValuesKept(before: Ledger, after: Ledger, rows: set<Income>, earlier: set<Income>, exchange: set<Income>,
                   symbol: string, now: int)
    requires Clean(exchange) && earlier <= exchange && rows <= exchange
    requires FromExchange(before, earlier, symbol) && Merged(before, after, rows, symbol, now)
    ensures forall id :: id in before ==> id in after && after[id] == before[id]
  {
    forall id | id in before ensures id in after && after[id] == before[id] {
      var r :| r in earlier && r.tranId == id && before[id] == Stored(r, symbol, 0);
      if w :| w in rows && w.tranId == id {
        assert w == r;
      }
    }
  }

  /** The page cap delays but never stalls: a sync reaches the exchange's end or moves the cursor on. */
  lemma SyncMakesProgress(ledger: Ledger, y: Sync, limit: nat, symbol: string)
    requires Clean(y.exchange) && limit >= 2
    requires Serves(y.feed, y.exchange, limit) && Sparse(y.exchange, limit)
    ensures var after, since := Step(ledger, y, limit, symbol), Since(ledger, symbol, y.now);
            (forall r :: r in y.exchange && r.time.value >= since ==> Holds(after, r, symbol))
            || exists id :: id in after && after[id].at > since + OVERLAP
  {
    var since := Since(ledger, symbol, y.now);
    var rows := SyncWritesOldest(ledger, y.feed, y.exchange, since, limit, symbol, y.now, MAX_PAGES);
    ReachesPastOverlap(rows, y.exchange, since, limit);
    var after := Step(ledger, y, limit, symbol);
    if !Exhausted(rows, y.exchange, since) {
      var w :| w in rows && w.time.Some? && w.time.value > since + OVERLAP;
      assert after[w.tranId].at > since + OVERLAP;
    }
  }

  // ----- Two histories with a gap -------------------------------------------------------

  /** The rows of an ascending list from a time on. */
  function From(all: seq<Income>, since: int): seq<Income> {
    if all == [] then []
    else if all[0].time.Some? && all[0].time.value < since then From(all[1..], since) else all
  }

  /** An exchange that shows these rows, all in one page. */
  function Serving(all: seq<Income>): Feed {
    (since: int) => From(all, since)
  }

  lemma {:induction false} FromIsTail(all: seq<Income>, since: int) returns (k: nat)
    requires (forall r :: r in all ==> r.time.Some?) && Ascending(all)
    ensures k <= |all| && From(all, since) == all[k..]
    ensures forall i :: 0 <= i < |all| ==> (i < k <==> all[i].time.value < since)
  {
    if all != [] && all[0].time.value < since {
      var rest := all[1..];
      assert forall r :: r in rest ==> r in all;
      var j := FromIsTail(rest, since);
      k := j + 1;
      assert rest[j..] == all[k..];
      assert forall i :: 1 <= i < |all| ==> all[i] == rest[i - 1];
    } else {
      k := 0;
    }
  }

  /** A stretch of an ascending list up to its end is a page when it fits. */
  lemma TailIsPage(all: seq<Income>, k: nat, exchange: set<Income>, since: int, limit: nat)
    requires Clean(exchange) && exchange == RowsOf(all) && k <= |all| <= limit && Ascending(all)
    requires forall i :: 0 <= i < |all| ==> (i < k <==> all[i].time.value < since)
    ensures IsPage(all[k..], exchange, since, limit)
  {
    forall r | r in exchange && r.time.value >= since ensures r in all[k..] {
      var i :| 0 <= i < |all| && all[i] == r;
      assert all[k..][i - k] == r;
    }
    forall r | r in all[k..] ensures r in exchange && r.time.value >= since {
      var i :| 0 <= i < |all[k..]| && all[k..][i] == r;
      assert all[k + i] == r;
    }
  }

  lemma ListIsServed(all: seq<Income>, limit: nat)
    requires Clean(RowsOf(all)) && (forall r :: r in all ==> r.time.Some?) && Ascending(all) && |all| <= limit
    ensures Serves(Serving(all), RowsOf(all), limit)
  {
    forall since ensures ServesAt(Serving(all), RowsOf(all), since, limit) {
      var k := FromIsTail(all, since);
      TailIsPage(all, k, RowsOf(all), since, limit);
    }
  }

  /** A sync against an exchange with these rows. */
  function SyncOf(all: seq<Income>, now: int): Sync {
    Sync(RowsOf(all), Serving(all), now)
  }

  const DAY: int := 86400000

  function At(id: string, time: int, tag: Option<string>): Income {
    Income(id, Some(time), 1.0, tag)
  }

  /** Payments at day 0, 1 and 59. */
  function ThreeRows(tag: Option<string>): seq<Income> {
    [At("a", 0, tag), At("b", DAY, tag), At("c", 59 * DAY, tag)]
  }

  /** The first sync sees the first payment, the second one, sixty days later, all three. */
  function TwoSyncs(tag: Option<string>): seq<Sync> {
    [SyncOf(ThreeRows(tag)[..1], 0), SyncOf(ThreeRows(tag), 60 * DAY)]
  }

  /** The first sync sees nothing yet, the second one, sixty days later, the last two payments. */
  function EmptyThenTwo(tag: Option<string>): seq<Sync> {
    [SyncOf([], 0), SyncOf(ThreeRows(tag)[1..], 60 * DAY)]
  }

  lemma IdsDiffer()
    ensures "a" != "b" && "b" != "c" && "a" != "c"
  {
    assert "a"[0] != "b"[0] && "b"[0] != "c"[0] && "a"[0] != "c"[0];
  }

  lemma ThreeRowsClean(tag: Option<string>)
    ensures var all := ThreeRows(tag);
            Clean(RowsOf(all)) && (forall r :: r in all ==> r.time.Some?) && Ascending(all)
  {
    IdsDiffer();
  }

  /** Every stretch of the three payments is a clean, sparse exchange that fits a page. */
  lemma StretchServed(tag: Option<string>, i: nat, j: nat, limit: nat)
    requires i <= j <= 3 <= limit
    ensures var part := ThreeRows(tag)[i..j];
            && RowsOf(part) <= RowsOf(ThreeRows(tag)) && Clean(RowsOf(part))
            && Serves(Serving(part), RowsOf(part), limit) && Sparse(RowsOf(part), limit)
  {
    var all, part := ThreeRows(tag), ThreeRows(tag)[i..j];
    ThreeRowsClean(tag);
    StretchOf(all, i, j);
    ListIsServed(part, limit);
    SmallIsSparse(part, limit);
  }

  lemma StretchOf(all: seq<Income>, i: nat, j: nat)
    requires i <= j <= |all| && Clean(RowsOf(all)) && (forall r :: r in all ==> r.time.Some?) && Ascending(all)
    ensures var part := all[i..j];
            && RowsOf(part) <= RowsOf(all) && Clean(RowsOf(part))
            && (forall r :: r in part ==> r.time.Some?) && Ascending(part)
  {
    var part := all[i..j];
    assert forall k :: 0 <= k < |part| ==> part[k] == all[i + k];
    PartOf(part, all, i);
    CleanPart(RowsOf(part), RowsOf(all));
  }

  lemma PartOf(part: seq<Income>, all: seq<Income>, i: nat)
    requires i + |part| <= |all| && forall k :: 0 <= k < |part| ==> part[k] == all[i + k]
    ensures RowsOf(part) <= RowsOf(all) && forall r :: r in part ==> r in all
  {
    forall r | r in part ensures r in all {
      var k :| 0 <= k < |part| && part[k] == r;
      assert all[i + k] == r;
    }
  }

  lemma CleanPart(part: set<Income>, all: set<Income>)
    requires part <= all && Clean(all)
    ensures Clean(part)
  {}

  lemma SmallIsSparse(part: seq<Income>, limit: nat)
    requires Clean(RowsOf(part)) && |part| <= 3 <= limit
    ensures Sparse(RowsOf(part), limit)
  {
    assert Capacity(limit, MAX_PAGES) >= limit + limit by {
      assert Capacity(limit, MAX_PAGES) == limit + (limit + Capacity(limit, MAX_PAGES - 2));
    }
    RowsFit(part);
    forall rows: set<Income>, from | rows <= RowsOf(part) && Within(rows, from)
      ensures |rows| < Capacity(limit, MAX_PAGES)
    {
      SubsetSize(rows, RowsOf(part));
    }
  }

  lemma {:induction false} RowsFit(page: seq<Income>)
    ensures |RowsOf(page)| <= |page|
  {
    if page != [] {
      var init, last := page[..|page| - 1], page[|page| - 1];
      assert page == init + [last];
      RowsFit(init);
      assert RowsOf(page) == RowsOf(init) + {last};
    }
  }

  lemma TwoAreSound(y: Sync, z: Sync, world: set<Income>, limit: nat)
    requires Clean(world) && y.exchange <= z.exchange <= world && y.now <= z.now && Evolves(y.exchange, z.exchange)
    requires Serves(y.feed, y.exchange, limit) && Sparse(y.exchange, limit)
    requires Serves(z.feed, z.exchange, limit) && Sparse(z.exchange, limit)
    ensures Sound([y, z], world, limit)
  {}

  /** Both histories meet everything that is assumed of an exchange. */
  lemma HistoriesAreSound(tag: Option<string>, limit: nat)
    requires limit >= 3
    ensures Sound(TwoSyncs(tag), RowsOf(ThreeRows(tag)), limit)
    ensures Sound(EmptyThenTwo(tag), RowsOf(ThreeRows(tag)), limit)
  {
    var all := ThreeRows(tag);
    ThreeRowsClean(tag);
    assert Sound(TwoSyncs(tag), RowsOf(all), limit) by {
      assert all[0..1] == all[..1] == [all[0]] && all[0..3] == all;
      StretchServed(tag, 0, 1, limit);
      StretchServed(tag, 0, 3, limit);
      TwoAreSound(SyncOf(all[..1], 0), SyncOf(all, 60 * DAY), RowsOf(all), limit);
    }
    assert Sound(EmptyThenTwo(tag), RowsOf(all), limit) by {
      assert all[0..0] == [] && all[1..3] == all[1..];
      StretchServed(tag, 0, 0, limit);
      StretchServed(tag, 1, 3, limit);
      TwoAreSound(SyncOf([], 0), SyncOf(all[1..], 60 * DAY), RowsOf(all), limit);
    }
  }

  lemma OnePage(ledger: Ledger, feed: Feed, since: int, limit: nat, symbol: string, now: int, r: Income)
    requires limit >= 2 && feed(since) == [r] && r.tranId != ""
    ensures SyncFrom(ledger, feed, since, limit, symbol, now, MAX_PAGES) == ledger[r.tranId := Stored(r, symbol, now)]
  {
    assert [r][..0] == [];
    assert Upsert(ledger, [], symbol, now) == ledger;
    assert Upsert(ledger, [r], symbol, now) == ledger[r.tranId := Stored(r, symbol, now)];
    assert NextCursor(feed(since), since, limit).None?;
  }

  /** From day 30 on only the last payment is served, by either exchange. */
  lemma LastPaymentOnly(tag: Option<string>)
    ensures From(ThreeRows(tag), 30 * DAY) == [At("c", 59 * DAY, tag)]
    ensures From(ThreeRows(tag)[1..], 30 * DAY) == [At("c", 59 * DAY, tag)]
  {
    var all := ThreeRows(tag);
    var k := FromIsTail(all, 30 * DAY);
    assert k == 2 by { assert all[1].time.value < 30 * DAY <= all[2].time.value; }
    assert all[2..] == [all[2]];
    assert From(all, 30 * DAY) == From(all[1..], 30 * DAY);
  }

  /** A second sync that cannot see a cursor goes back thirty days and skips the payment of day 1. */
  lemma SecondSyncSkips(ledger: Ledger, part: seq<Income>, tag: Option<string>, symbol: string, limit: nat)
    requires limit >= 3 && Clean(RowsOf(part)) && At("b", DAY, tag) in part
    requires part == ThreeRows(tag) || part == ThreeRows(tag)[1..]
    requires SymbolMax(ledger, symbol).None? && "b" !in ledger
    ensures !NoGap(Step(ledger, SyncOf(part, 60 * DAY), limit, symbol), -BACKFILL, RowsOf(part), symbol)
  {
    var y, c := SyncOf(part, 60 * DAY), At("c", 59 * DAY, tag);
    LastPaymentOnly(tag);
    IdsDiffer();
    assert Since(ledger, symbol, y.now) == 30 * DAY;
    assert y.feed(30 * DAY) == [c];
    OnePage(ledger, y.feed, 30 * DAY, limit, symbol, y.now, c);
    var after := Step(ledger, y, limit, symbol);
    assert after["c"].at == 59 * DAY && "b" !in after;
  }

  lemma AfterTwo(y: Sync, z: Sync, limit: nat, symbol: string)
    ensures After([y], limit, symbol) == Step(map[], y, limit, symbol)
    ensures After([y, z], limit, symbol) == Step(Step(map[], y, limit, symbol), z, limit, symbol)
  {
    assert [y][..0] == [] && [y, z][..1] == [y];
    assert After([], limit, symbol) == map[];
  }

  /**
   * With any tag, matching ones included: a first sync that finds the exchange empty, then a
   * payment, then no sync for sixty days, and that payment is never stored.
   */
  lemma EmptyStartSkipsAPayment(tag: Option<string>, symbol: string, limit: nat)
    requires limit >= 3
    ensures !GapFree(EmptyThenTwo(tag), limit, symbol) && !NothingMissed(EmptyThenTwo(tag))
  {
    var run, part := EmptyThenTwo(tag), ThreeRows(tag)[1..];
    HistoriesAreSound(tag, limit);
    SoundIsClean(run, RowsOf(ThreeRows(tag)), limit);
    AfterTwo(run[0], run[1], limit, symbol);
    assert run == [run[0], run[1]];
    var rows := FirstRows(run[0], limit, symbol);
    assert part[0] == At("b", DAY, tag) && part[1] == At("c", 59 * DAY, tag);
    assert SymbolMax(map[], symbol).None?;
    SecondSyncSkips(map[], part, tag, symbol, limit);
    assert part[0] in run[1].exchange && part[1] in run[1].exchange;
    assert FirstCatch(run, 1) && MissedAt(run, 1);
  }

  // ----- When the exchange tags rows differently ----------------------------------------

  /** All rows carry the same tag. */
  predicate UniformTag(rows: set<Income>, tag: Option<string>) {
    forall r :: r in rows ==> r.symbol == tag
  }

  /** Under a foreign tag the cursor never finds a row, and the second sync skips a payment. */
  lemma ForeignTagSkipsAPayment(tag: Option<string>, symbol: string, limit: nat)
    requires StoredSymbol(tag, symbol) != symbol && limit >= 3
    ensures !GapFree(TwoSyncs(tag), limit, symbol) && NothingMissed(TwoSyncs(tag))
  {
    var run, a := TwoSyncs(tag), At("a", 0, tag);
    HistoriesAreSound(tag, limit);
    SoundIsClean(run, RowsOf(ThreeRows(tag)), limit);
    IdsDiffer();
    AfterTwo(run[0], run[1], limit, symbol);
    assert run == [run[0], run[1]] && ThreeRows(tag)[..1] == [a];
    assert run[0].feed(-BACKFILL) == [a];
    assert SymbolMax(map[], symbol).None?;
    OnePage(map[], run[0].feed, -BACKFILL, limit, symbol, 0, a);
    var one := Step(map[], run[0], limit, symbol);
    assert one == map["a" := Stored(a, symbol, 0)];
    assert SymbolMax(one, symbol).None?;
    assert ThreeRows(tag)[1] == At("b", DAY, tag);
    SecondSyncSkips(one, ThreeRows(tag), tag, symbol, limit);
    assert a in run[0].exchange && Catches(run[0]);
  }

  /**
   * Exactly when the tag is right: against exchanges that tag every row alike, every run that
   * missed nothing before its first rows is gap-free after each sync, if and only if that tag
   * is absent or is the very symbol asked for.
   */
  lemma GapFreeIffTagMatches(tag: Option<string>, symbol: string, limit: nat)
    requires limit >= 3
    ensures StoredSymbol(tag, symbol) == symbol
      <==> forall run, world :: Sound(run, world, limit) && UniformTag(world, tag) && NothingMissed(run)
             ==> AlwaysGapFree(run, limit, symbol)
  {
    if StoredSymbol(tag, symbol) == symbol {
      forall run, world | Sound(run, world, limit) && UniformTag(world, tag) && NothingMissed(run)
        ensures AlwaysGapFree(run, limit, symbol)
      {
        AlwaysGapFreeIff(run, world, limit, symbol);
      }
    } else {
      var run, world := TwoSyncs(tag), RowsOf(ThreeRows(tag));
      HistoriesAreSound(tag, limit);
      ForeignTagSkipsAPayment(tag, symbol, limit);
      assert Sound(run, world, limit) && UniformTag(world, tag) && NothingMissed(run);
      assert run[..2] == run;
    }
  }

  // ----- Funding of a time window -------------------------------------------------------

  predicate InWindow(e: Entry, symbol: string, from: Option<int>, to: Option<int>) {
    e.symbol == symbol && (from.None? || e.at >= from.value) && (to.None? || e.at < to.value)
  }

  ghost function Total(ledger: Ledger, ids: set<string>): real
    requires ids <= ledger.Keys
  {
    if ids == {} then 0.0 else var id :| id in ids; ledger[id].income + Total(ledger, ids - {id})
  }

  ghost function SumFunding(ledger: Ledger, symbol: string, from: Option<int>, to: Option<int>): real {
    Total(ledger, set id | id in ledger && InWindow(ledger[id], symbol, from, to))
  }

  lemma {:induction false} TotalRemove(ledger: Ledger, ids: set<string>, x: string)
    requires x in ids && ids <= ledger.Keys
    ensures Total(ledger, ids) == ledger[x].income + Total(ledger, ids - {x})
    decreases ids
  {
    var id :| id in ids && Total(ledger, ids) == ledger[id].income + Total(ledger, ids - {id});
    if id != x {
      TotalRemove(ledger, ids - {id}, x);
      TotalRemove(ledger, ids - {x}, id);
      assert ids - {id} - {x} == ids - {x} - {id};
    }
  }

  lemma {:induction false} TotalSplits(ledger: Ledger, a: set<string>, b: set<string>)
    requires a !! b && a + b <= ledger.Keys
    ensures Total(ledger, a + b) == Total(ledger, a) + Total(ledger, b)
    decreases a
  {
    if a == {} {
      assert a + b == b;
    } else {
      var x :| x in a;
      TotalRemove(ledger, a, x);
      TotalRemove(ledger, a + b, x);
      assert a + b - {x} == (a - {x}) + b;
      TotalSplits(ledger, a - {x}, b);
    }
  }

  /** Adjacent windows attribute every payment to exactly one of them. */
  lemma AdjacentWindowsAdd(ledger: Ledger, symbol: string, from: Option<int>, mid: int, to: Option<int>)
    requires (from.Some? ==> from.value <= mid) && (to.Some? ==> mid <= to.value)
    ensures SumFunding(ledger, symbol, from, to)
         == SumFunding(ledger, symbol, from, Some(mid)) + SumFunding(ledger, symbol, Some(mid), to)
  {
    var a := set id | id in ledger && InWindow(ledger[id], symbol, from, Some(mid));
    var b := set id | id in ledger && InWindow(ledger[id], symbol, Some(mid), to);
    assert (set id | id in ledger && InWindow(ledger[id], symbol, from, to)) == a + b;
    TotalSplits(ledger, a, b);
  }

  /** The window loop of the funding sum, over the ledger rows in any order. */
  method ComputeFunding(ledger: Ledger, symbol: string, from: Option<int>, to: Option<int>) returns (total: real)
    ensures total == SumFunding(ledger, symbol, from, to)
  {
    total := 0.0;
    var todo := set id | id in ledger && InWindow(ledger[id], symbol, from, to);
    ghost var all := todo;
    while todo != {}
      invariant todo <= all <= ledger.Keys
      invariant total + Total(ledger, todo) == Total(ledger, all)
      decreases |todo|
    {
      var id :| id in todo;
      TotalRemove(ledger, todo, id);
      total := total + ledger[id].income;
      todo := todo - {id};
    }
  }

  // ----- The ledger says what the exchange paid -----------------------------------------

  /** The ledger has this payment: its amount, its time, and the symbol it was asked for under. */
  predicate Booked(ledger: Ledger, r: Income, symbol: string) {
    && r.time.Some? && r.tranId in ledger && ledger[r.tranId].income == r.income
    && ledger[r.tranId].at == r.time.value && ledger[r.tranId].symbol == symbol
  }

  /** Every ledger row is a payment that the exchange shows. */
  predicate NothingInvented(ledger: Ledger, exchange: set<Income>, symbol: string) {
    forall id :: id in ledger ==> exists r :: r in exchange && r.tranId == id && Booked(ledger, r, symbol)
  }

  /** Some ledger row is at least as new as this payment. */
  predicate Reached(ledger: Ledger, r: Income) {
    r.time.Some? && exists id :: id in ledger && r.time.value <= ledger[id].at
  }

  /** Where a sync starts: five minutes before the symbol's newest row, or thirty days back if it has none. */
  lemma CursorIsNewestLessOverlap(ledger: Ledger, symbol: string, now: int, since: int)
    ensures since == Since(ledger, symbol, now)
       <==> if forall id :: id in ledger ==> ledger[id].symbol != symbol then since == now - 30 * 24 * 3600 * 1000
            else
              var newest := since + 5 * 60 * 1000;
              && (exists id :: id in ledger && ledger[id].symbol == symbol && ledger[id].at == newest)
              && (forall id :: id in ledger && ledger[id].symbol == symbol ==> ledger[id].at <= newest)
  {
    var last := SymbolMax(ledger, symbol);
    if last.Some? {
      var id :| id in ledger && ledger[id].symbol == symbol && ledger[id].at == last.value;
    }
  }

  /** A sync asks for at most ten pages, so it carries ten times the page size. */
  lemma SyncCarriesTenPages(limit: nat)
    ensures Capacity(limit, MAX_PAGES) == 10 * limit
  {
    CapacityIs(limit, MAX_PAGES);
  }

  lemma {:induction false} CapacityIs(limit: nat, rounds: nat)
    ensures Capacity(limit, rounds) == rounds * limit
  {
    if rounds > 0 { CapacityIs(limit, rounds - 1); }
  }

  /** An upsert leaves alone every id that its page does not have, and never stores a row without one. */
  lemma {:induction false} OtherIdsUntouched(ledger: Ledger, page: seq<Income>, symbol: string, now: int, id: string)
    requires id == "" || forall i :: 0 <= i < |page| ==> page[i].tranId != id
    ensures var after := Upsert(ledger, page, symbol, now);
            (id in after <==> id in ledger) && (id in ledger ==> after[id] == ledger[id])
  {
    if page != [] { OtherIdsUntouched(ledger, page[..|page| - 1], symbol, now, id); }
  }

  /**
   * The last row of an id is what the ledger has afterwards: the amount as the exchange gave
   * it, its time or failing that the present, its tag or failing that the symbol asked for.
   */
  lemma {:induction false} LastRowCounts(ledger: Ledger, page: seq<Income>, symbol: string, now: int, k: nat)
    requires k < |page| && page[k].tranId != "" && forall j :: k < j < |page| ==> page[j].tranId != page[k].tranId
    ensures var after, r := Upsert(ledger, page, symbol, now), page[k];
            && r.tranId in after && after[r.tranId].income == r.income
            && after[r.tranId].at == (if r.time.Some? then r.time.value else now)
            && after[r.tranId].symbol == (if r.symbol.None? || r.symbol.value == "" then symbol else r.symbol.value)
  {
    if k < |page| - 1 { LastRowCounts(ledger, page[..|page| - 1], symbol, now, k); }
  }

  /** How many rows an upsert reports as written: those with an id. */
  lemma {:induction false} WritableCounts(rows: seq<Income>)
    ensures Writable(rows) == |WithId(rows)|
  {
    if rows != [] {
      var init, last := rows[..|rows| - 1], |rows| - 1;
      WritableCounts(init);
      assert WithId(rows) == if rows[last].tranId != "" then WithId(init) + {last} else WithId(init) by {
        assert forall i :: i in WithId(rows) <==> i in WithId(init) || (i == last && rows[last].tranId != "");
      }
    }
  }

  /** Where the rows with an id are. */
  function WithId(rows: seq<Income>): set<int> {
    set i | 0 <= i < |rows| && rows[i].tranId != ""
  }

  /**
   * After each sync of a run that missed nothing, the ledger has every payment from the first
   * backfill start up to its newest row, with the amount and the time that the exchange
   * reported, and it has nothing that the exchange did not report.
   */
  lemma LedgerSaysWhatWasPaid(run: seq<Sync>, world: set<Income>, limit: nat, symbol: string, n: nat)
    requires limit >= 2 && Sound(run, world, limit) && Tagged(world, symbol) && NothingMissed(run) && 1 <= n <= |run|
    ensures var ledger, exchange := After(run[..n], limit, symbol), run[n - 1].exchange;
            && Clean(exchange)
            && (forall r :: r in exchange && BackfillStart(run[0]) <= r.time.value && Reached(ledger, r)
                  ==> Booked(ledger, r, symbol))
            && NothingInvented(ledger, exchange, symbol)
  {
    var ledger, exchange := After(run[..n], limit, symbol), run[n - 1].exchange;
    GapFreeWhenNothingMissed(run, world, limit, symbol, n);
    SoundUpTo(run, world, limit, n);
    assert run[..n][n - 1] == run[n - 1] && run[..n][0] == run[0];
    LedgerIsVisible(run[..n], world, limit, symbol);
    LastSyncIsSound(run[..n], world, limit);
    forall r | r in exchange && BackfillStart(run[0]) <= r.time.value && Reached(ledger, r)
      ensures Booked(ledger, r, symbol)
    {
      assert Holds(ledger, r, symbol);
    }
    forall id | id in ledger ensures exists r :: r in exchange && r.tranId == id && Booked(ledger, r, symbol) {
      var r :| r in exchange && r.tranId == id && ledger[id] == Stored(r, symbol, 0);
      assert Booked(ledger, r, symbol);
    }
  }

  /** What these payments add up to. */
  ghost function Paid(rows: set<Income>): real {
    if rows == {} then 0.0 else var r :| r in rows; r.income + Paid(rows - {r})
  }

  function InPeriod(rows: set<Income>, from: int, to: int): set<Income> {
    set r | r in rows && r.time.Some? && from <= r.time.value < to
  }

  lemma {:induction false} TotalIsPaid(ledger: Ledger, ids: set<string>, rows: set<Income>)
    requires ids <= ledger.Keys && IdsIdentify(rows)
    requires forall r :: r in rows ==> r.tranId in ids && ledger[r.tranId].income == r.income
    requires forall id :: id in ids ==> exists r :: r in rows && r.tranId == id
    ensures Total(ledger, ids) == Paid(rows)
    decreases rows
  {
    if rows == {} {
      assert ids == {};
    } else {
      var r :| r in rows && Paid(rows) == r.income + Paid(rows - {r});
      TotalRemove(ledger, ids, r.tranId);
      forall id | id in ids - {r.tranId} ensures exists x :: x in rows - {r} && x.tranId == id {
        var x :| x in rows && x.tranId == id;
        assert x in rows - {r};
      }
      TotalIsPaid(ledger, ids - {r.tranId}, rows - {r});
    }
  }

  /**
   * The funding of a period is what the exchange paid in it: for every period from the first
   * backfill start on that the ledger has reached, the sum over the ledger is the sum of the
   * amounts the exchange reports for it.
   */
  lemma FundingIsWhatWasPaid(run: seq<Sync>, world: set<Income>, limit: nat, symbol: string, n: nat, from: int,
                             to: int)
    requires limit >= 2 && Sound(run, world, limit) && Tagged(world, symbol) && NothingMissed(run) && 1 <= n <= |run|
    requires BackfillStart(run[0]) <= from
    requires forall r :: r in InPeriod(run[n - 1].exchange, from, to) ==> Reached(After(run[..n], limit, symbol), r)
    ensures SumFunding(After(run[..n], limit, symbol), symbol, Some(from), Some(to))
         == Paid(InPeriod(run[n - 1].exchange, from, to))
  {
    var ledger, exchange := After(run[..n], limit, symbol), run[n - 1].exchange;
    LedgerSaysWhatWasPaid(run, world, limit, symbol, n);
    forall r | r in InPeriod(exchange, from, to) ensures Booked(ledger, r, symbol) {
      assert r in exchange && Reached(ledger, r);
    }
    BookedSum(ledger, exchange, symbol, from, to);
  }

  lemma BookedSum(ledger: Ledger, exchange: set<Income>, symbol: string, from: int, to: int)
    requires Clean(exchange) && forall r :: r in InPeriod(exchange, from, to) ==> Booked(ledger, r, symbol)
    requires NothingInvented(ledger, exchange, symbol)
    ensures SumFunding(ledger, symbol, Some(from), Some(to)) == Paid(InPeriod(exchange, from, to))
  {
    var ids := set id | id in ledger && InWindow(ledger[id], symbol, Some(from), Some(to));
    var rows := InPeriod(exchange, from, to);
    forall id | id in ids ensures exists r :: r in rows && r.tranId == id {
      var r :| r in exchange && r.tranId == id && Booked(ledger, r, symbol);
      assert r in rows;
    }
    TotalIsPaid(ledger, ids, rows);
  }
}
