/**
 * One ledger for every symbol an account ever traded.
 *
 * Syncs of different symbols are interleaved at will over the same table. Each symbol's share
 * of the table goes through that symbol's own syncs alone, so what is known about one symbol
 * holds beside any others.
 */
module FundingLedger {
  import opened Common
  import opened FundingSync

  /** A sync and the symbol it asks for. */
  datatype Order = Order(symbol: string, sync: Sync)

  ghost function AfterAll(orders: seq<Order>, limit: nat): Ledger {
    if orders == [] then map[]
    else
      var o := orders[|orders| - 1];
      Step(AfterAll(orders[..|orders| - 1], limit), o.sync, limit, o.symbol)
  }

  /** The syncs of one symbol, in order. */
  function SyncsOf(orders: seq<Order>, symbol: string): seq<Sync> {
    if orders == [] then []
    else
      var o := orders[|orders| - 1];
      SyncsOf(orders[..|orders| - 1], symbol) + if o.symbol == symbol then [o.sync] else []
  }

  /** The rows stored under one symbol. */
  function Only(ledger: Ledger, symbol: string): Ledger {
    map id | id in ledger && ledger[id].symbol == symbol :: ledger[id]
  }

  /** The exchange is clean, pages as assumed, and its rows are stored under the symbol asked for. */
  ghost predicate Fits(o: Order, limit: nat) {
    Clean(o.sync.exchange) && Serves(o.sync.feed, o.sync.exchange, limit) && Tagged(o.sync.exchange, o.symbol)
  }

  predicate HasId(y: Sync, id: string) {
    exists r :: r in y.exchange && r.tranId == id
  }

  predicate ApartFrom(ledger: Ledger, y: Sync) {
    forall id :: id in ledger ==> !HasId(y, id)
  }

  /** Transaction ids tell symbols apart as well. */
  ghost predicate Apart(orders: seq<Order>) {
    forall i, j :: 0 <= i < |orders| && 0 <= j < |orders| && orders[i].symbol != orders[j].symbol
      ==> NoCommonId(orders[i].sync, orders[j].sync)
  }

  ghost predicate NoCommonId(y: Sync, z: Sync) {
    forall id :: HasId(y, id) ==> !HasId(z, id)
  }

  ghost predicate Shared(orders: seq<Order>, limit: nat) {
    limit >= 2 && Apart(orders) && forall i :: 0 <= i < |orders| ==> Fits(orders[i], limit)
  }

  // ----- One upsert, one sync -----------------------------------------------------------

  lemma OnlyUpdate(ledger: Ledger, id: string, e: Entry, symbol: string)
    ensures e.symbol == symbol ==> Only(ledger[id := e], symbol) == Only(ledger, symbol)[id := e]
    ensures e.symbol != symbol && id !in Only(ledger, symbol) ==> Only(ledger[id := e], symbol) == Only(ledger, symbol)
  {}

  lemma {:induction false} UpsertOwn(ledger: Ledger, page: seq<Income>, symbol: string, now: int)
    requires forall r :: r in page ==> StoredSymbol(r.symbol, symbol) == symbol
    ensures Only(Upsert(ledger, page, symbol, now), symbol) == Upsert(Only(ledger, symbol), page, symbol, now)
  {
    if page != [] {
      var init, r := page[..|page| - 1], page[|page| - 1];
      UpsertOwn(ledger, init, symbol, now);
      OnlyUpdate(Upsert(ledger, init, symbol, now), r.tranId, Stored(r, symbol, now), symbol);
    }
  }

  lemma {:induction false} UpsertOther(ledger: Ledger, page: seq<Income>, symbol: string, now: int, other: string)
    requires other != symbol
    requires forall r :: r in page ==> StoredSymbol(r.symbol, symbol) == symbol && r.tranId !in Only(ledger, other)
    ensures Only(Upsert(ledger, page, symbol, now), other) == Only(ledger, other)
  {
    if page != [] {
      var init, r := page[..|page| - 1], page[|page| - 1];
      UpsertOther(ledger, init, symbol, now, other);
      OnlyUpdate(Upsert(ledger, init, symbol, now), r.tranId, Stored(r, symbol, now), other);
    }
  }

  lemma {:induction false} PagesOwn(ledger: Ledger, o: Order, since: int, limit: nat, rounds: nat)
    requires Fits(o, limit)
    ensures Only(SyncFrom(ledger, o.sync.feed, since, limit, o.symbol, o.sync.now, rounds), o.symbol)
         == SyncFrom(Only(ledger, o.symbol), o.sync.feed, since, limit, o.symbol, o.sync.now, rounds)
    decreases rounds
  {
    var y := o.sync;
    if rounds > 0 {
      assert ServesAt(y.feed, y.exchange, since, limit);
      UpsertOwn(ledger, y.feed(since), o.symbol, y.now);
      var next := NextCursor(y.feed(since), since, limit);
      if next.Some? {
        PagesOwn(Upsert(ledger, y.feed(since), o.symbol, y.now), o, next.value, limit, rounds - 1);
      }
      SyncUnfolds(ledger, y.feed, since, limit, o.symbol, y.now, rounds);
      SyncUnfolds(Only(ledger, o.symbol), y.feed, since, limit, o.symbol, y.now, rounds);
    }
  }

  lemma {:induction false} PagesOther(ledger: Ledger, o: Order, since: int, limit: nat, rounds: nat, other: string)
    requires Fits(o, limit) && other != o.symbol && ApartFrom(Only(ledger, other), o.sync)
    ensures Only(SyncFrom(ledger, o.sync.feed, since, limit, o.symbol, o.sync.now, rounds), other)
         == Only(ledger, other)
    decreases rounds
  {
    var y := o.sync;
    if rounds > 0 {
      assert ServesAt(y.feed, y.exchange, since, limit);
      forall r | r in y.feed(since) ensures r.tranId !in Only(ledger, other) {
        assert HasId(y, r.tranId);
      }
      UpsertOther(ledger, y.feed(since), o.symbol, y.now, other);
      var next := NextCursor(y.feed(since), since, limit);
      if next.Some? {
        PagesOther(Upsert(ledger, y.feed(since), o.symbol, y.now), o, next.value, limit, rounds - 1, other);
      }
      SyncUnfolds(ledger, y.feed, since, limit, o.symbol, y.now, rounds);
    }
  }

  /** The cursor looks at the symbol's own rows only. */
  lemma CursorIsOwn(ledger: Ledger, symbol: string, now: int)
    ensures Since(ledger, symbol, now) == Since(Only(ledger, symbol), symbol, now)
  {
    var all, own := SymbolMax(ledger, symbol), SymbolMax(Only(ledger, symbol), symbol);
    if all.Some? {
      var k :| k in ledger && ledger[k].symbol == symbol && ledger[k].at == all.value;
      assert k in Only(ledger, symbol);
    }
    if own.Some? {
      var k :| k in Only(ledger, symbol) && Only(ledger, symbol)[k].at == own.value;
      assert k in ledger && ledger[k].symbol == symbol;
    }
  }

  lemma SyncOwn(ledger: Ledger, o: Order, limit: nat)
    requires Fits(o, limit)
    ensures Only(Step(ledger, o.sync, limit, o.symbol), o.symbol)
         == Step(Only(ledger, o.symbol), o.sync, limit, o.symbol)
  {
    CursorIsOwn(ledger, o.symbol, o.sync.now);
    PagesOwn(ledger, o, Since(ledger, o.symbol, o.sync.now), limit, MAX_PAGES);
  }

  // ----- Runs ---------------------------------------------------------------------------

  /** Every row of the shared ledger was served to a sync of the symbol it is stored under. */
  ghost predicate Sourced(ledger: Ledger, orders: seq<Order>) {
    forall id :: id in ledger ==> ServedTo(orders, ledger[id].symbol, id)
  }

  predicate ServedTo(orders: seq<Order>, symbol: string, id: string) {
    exists i :: 0 <= i < |orders| && orders[i].symbol == symbol && HasId(orders[i].sync, id)
  }

  lemma SharedPrefix(orders: seq<Order>, limit: nat, n: nat)
    requires n <= |orders| && Shared(orders, limit)
    ensures Shared(orders[..n], limit)
  {
    var init := orders[..n];
    assert forall i :: 0 <= i < n ==> init[i] == orders[i];
  }

  lemma {:induction false} RowsAreSourced(orders: seq<Order>, limit: nat)
    requires Shared(orders, limit)
    ensures Sourced(AfterAll(orders, limit), orders)
  {
    if orders != [] {
      var init, o := orders[..|orders| - 1], orders[|orders| - 1];
      SharedPrefix(orders, limit, |orders| - 1);
      RowsAreSourced(init, limit);
      var before := AfterAll(init, limit);
      var since := Since(before, o.symbol, o.sync.now);
      var rows := SyncWritesOldest(before, o.sync.feed, o.sync.exchange, since, limit, o.symbol, o.sync.now, MAX_PAGES);
      SourcedStep(before, AfterAll(orders, limit), orders, rows);
    }
  }

  lemma SourcedStep(before: Ledger, after: Ledger, orders: seq<Order>, rows: set<Income>)
    requires orders != [] && Sourced(before, orders[..|orders| - 1])
    requires var o := orders[|orders| - 1];
             && rows <= o.sync.exchange && Tagged(o.sync.exchange, o.symbol)
             && Merged(before, after, rows, o.symbol, o.sync.now)
    ensures Sourced(after, orders)
  {
    var init, o := orders[..|orders| - 1], orders[|orders| - 1];
    forall id | id in after ensures ServedTo(orders, after[id].symbol, id) {
      if r :| r in rows && r.tranId == id {
        assert HasId(o.sync, id) && after[id].symbol == o.symbol;
      } else {
        assert Untouched(id, rows);
        var i :| 0 <= i < |init| && init[i].symbol == before[id].symbol && HasId(init[i].sync, id);
        assert orders[i] == init[i];
      }
    }
  }

  /** Rows of another symbol have ids that a sync does not touch. */
  lemma OthersAreApart(ledger: Ledger, orders: seq<Order>, other: string)
    requires orders != [] && Apart(orders) && other != orders[|orders| - 1].symbol
    requires Sourced(ledger, orders[..|orders| - 1])
    ensures ApartFrom(Only(ledger, other), orders[|orders| - 1].sync)
  {
    var init, last := orders[..|orders| - 1], |orders| - 1;
    forall id | id in Only(ledger, other) ensures !HasId(orders[last].sync, id) {
      assert ServedTo(init, other, id);
      var i :| 0 <= i < |init| && init[i].symbol == other && HasId(init[i].sync, id);
      assert orders[i] == init[i];
      assert NoCommonId(orders[i].sync, orders[last].sync);
    }
  }

  /** Each symbol's share of the ledger is what its own syncs alone would have made. */
  lemma {:induction false} SymbolsDoNotInterfere(orders: seq<Order>, limit: nat, symbol: string)
    requires Shared(orders, limit)
    ensures Only(AfterAll(orders, limit), symbol) == After(SyncsOf(orders, symbol), limit, symbol)
  {
    if orders != [] {
      var init, o := orders[..|orders| - 1], orders[|orders| - 1];
      SharedPrefix(orders, limit, |orders| - 1);
      SymbolsDoNotInterfere(init, limit, symbol);
      var before := AfterAll(init, limit);
      var mine := SyncsOf(init, symbol);
      if o.symbol == symbol {
        SyncOwn(before, o, limit);
        assert (mine + [o.sync])[..|mine|] == mine;
      } else {
        RowsAreSourced(init, limit);
        OthersAreApart(before, orders, symbol);
        PagesOther(before, o, Since(before, o.symbol, o.sync.now), limit, MAX_PAGES, symbol);
        assert mine + [] == mine;
      }
    }
  }

  // ----- Gaps ---------------------------------------------------------------------------

  /** At this point the symbol's rows have no gap from the start of its own first backfill. */
  ghost predicate GapFreeNow(orders: seq<Order>, limit: nat, symbol: string) {
    var mine := SyncsOf(orders, symbol);
    mine != [] ==>
      var exchange := mine[|mine| - 1].exchange;
      Clean(exchange) && NoGap(Only(AfterAll(orders, limit), symbol), BackfillStart(mine[0]), exchange, symbol)
  }

  ghost predicate GapFreeThroughout(orders: seq<Order>, limit: nat, symbol: string) {
    forall n :: 0 <= n <= |orders| ==> GapFreeNow(orders[..n], limit, symbol)
  }

  lemma NowIsOwn(orders: seq<Order>, limit: nat, symbol: string)
    requires Shared(orders, limit) && SyncsOf(orders, symbol) != []
    ensures GapFreeNow(orders, limit, symbol) <==> GapFree(SyncsOf(orders, symbol), limit, symbol)
  {
    SymbolsDoNotInterfere(orders, limit, symbol);
  }

  /** The syncs of a symbol in a shorter run are a prefix of those in a longer one. */
  lemma {:induction false} SyncsOfPrefix(orders: seq<Order>, symbol: string, n: nat)
    requires n <= |orders|
    ensures SyncsOf(orders[..n], symbol) <= SyncsOf(orders, symbol)
    decreases |orders| - n
  {
    if n == |orders| {
      assert orders[..n] == orders;
    } else {
      SyncsOfPrefix(orders, symbol, n + 1);
      assert orders[..n + 1][..n] == orders[..n];
    }
  }

  /** Every prefix of a symbol's syncs is reached at some point of the shared run. */
  lemma {:induction false} PrefixIsReached(orders: seq<Order>, symbol: string, m: nat) returns (n: nat)
    requires m <= |SyncsOf(orders, symbol)|
    ensures n <= |orders| && SyncsOf(orders[..n], symbol) == SyncsOf(orders, symbol)[..m]
  {
    var mine := SyncsOf(orders, symbol);
    if m == |mine| {
      n := |orders|;
      assert orders[..n] == orders && mine[..m] == mine;
    } else {
      var init := orders[..|orders| - 1];
      n := PrefixIsReached(init, symbol, m);
      assert orders[..n] == init[..n];
      assert SyncsOf(init, symbol)[..m] == mine[..m];
    }
  }

  /**
   * Beside any other symbols and in any order of syncs, a symbol's rows are without a gap at
   * every point of the run if and only if its own syncs missed nothing before their first rows.
   */
  lemma EachSymbolIsGapFreeIff(orders: seq<Order>, world: set<Income>, limit: nat, symbol: string)
    requires Shared(orders, limit) && Sound(SyncsOf(orders, symbol), world, limit) && Tagged(world, symbol)
    ensures GapFreeThroughout(orders, limit, symbol) <==> NothingMissed(SyncsOf(orders, symbol))
  {
    var mine := SyncsOf(orders, symbol);
    AlwaysGapFreeIff(mine, world, limit, symbol);
    if AlwaysGapFree(mine, limit, symbol) {
      forall n | 0 <= n <= |orders| ensures GapFreeNow(orders[..n], limit, symbol) {
        OwnPointIsGapFree(orders, limit, symbol, n);
      }
    }
    if GapFreeThroughout(orders, limit, symbol) {
      forall m | 1 <= m <= |mine| ensures GapFree(mine[..m], limit, symbol) {
        var n := PrefixIsReached(orders, symbol, m);
        SharedPrefix(orders, limit, n);
        assert GapFreeNow(orders[..n], limit, symbol);
        NowIsOwn(orders[..n], limit, symbol);
      }
    }
  }

  lemma OwnPointIsGapFree(orders: seq<Order>, limit: nat, symbol: string, n: nat)
    requires Shared(orders, limit) && n <= |orders| && AlwaysGapFree(SyncsOf(orders, symbol), limit, symbol)
    ensures GapFreeNow(orders[..n], limit, symbol)
  {
    var mine, part := SyncsOf(orders, symbol), SyncsOf(orders[..n], symbol);
    SharedPrefix(orders, limit, n);
    SyncsOfPrefix(orders, symbol, n);
    if part != [] {
      assert part == mine[..|part|];
      assert GapFree(mine[..|part|], limit, symbol);
      NowIsOwn(orders[..n], limit, symbol);
    }
  }

  // ----- Sums ---------------------------------------------------------------------------

  lemma {:induction false} TotalOfShare(ledger: Ledger, symbol: string, ids: set<string>)
    requires ids <= Only(ledger, symbol).Keys
    ensures ids <= ledger.Keys && Total(ledger, ids) == Total(Only(ledger, symbol), ids)
    decreases ids
  {
    forall id | id in ids ensures id in ledger {
      assert id in Only(ledger, symbol);
    }
    if ids != {} {
      var id :| id in ids && Total(ledger, ids) == ledger[id].income + Total(ledger, ids - {id});
      TotalRemove(Only(ledger, symbol), ids, id);
      TotalOfShare(ledger, symbol, ids - {id});
    }
  }

  /** A symbol's funding is summed over its own rows. */
  lemma SumIsOwn(ledger: Ledger, symbol: string, from: Option<int>, to: Option<int>)
    ensures SumFunding(ledger, symbol, from, to) == SumFunding(Only(ledger, symbol), symbol, from, to)
  {
    var own := Only(ledger, symbol);
    var ids := set id | id in own && InWindow(own[id], symbol, from, to);
    assert ids == set id | id in ledger && InWindow(ledger[id], symbol, from, to);
    TotalOfShare(ledger, symbol, ids);
  }

  /**
   * Beside any other symbols, the funding of a symbol over a period that its rows have reached
   * is what the exchange paid for it in that period.
   */
  lemma EachSymbolSumsWhatWasPaid(orders: seq<Order>, world: set<Income>, limit: nat, symbol: string, from: int,
                                  to: int)
    requires Shared(orders, limit) && Sound(SyncsOf(orders, symbol), world, limit) && Tagged(world, symbol)
    requires SyncsOf(orders, symbol) != [] && NothingMissed(SyncsOf(orders, symbol))
    requires BackfillStart(SyncsOf(orders, symbol)[0]) <= from
    requires var mine := SyncsOf(orders, symbol);
             forall r :: r in InPeriod(mine[|mine| - 1].exchange, from, to)
               ==> Reached(Only(AfterAll(orders, limit), symbol), r)
    ensures var mine := SyncsOf(orders, symbol);
            SumFunding(AfterAll(orders, limit), symbol, Some(from), Some(to))
            == Paid(InPeriod(mine[|mine| - 1].exchange, from, to))
  {
    var mine := SyncsOf(orders, symbol);
    SymbolsDoNotInterfere(orders, limit, symbol);
    SumIsOwn(AfterAll(orders, limit), symbol, Some(from), Some(to));
    assert mine[..|mine|] == mine;
    FundingIsWhatWasPaid(mine, world, limit, symbol, |mine|, from, to);
  }
}
