/**
 * Bringing the position rows of an account in line with the exchange.
 *
 * A sync reads the account's open rows, newest first, and one exchange snapshot. A flat
 * exchange closes every open row if the caller asks for it. A live position creates a row
 * when there is none, and otherwise refreshes the newest row field by field and closes
 * the others as duplicates. Only fields outside the tolerance are written.
 */
module ExchangeSync {
  import opened Common
  import opened PositionStates

  datatype Side = Long | Short

  /** The part of the exchange's raw answer that is stored with the row. */
  type Raw = map<string, string>

  datatype Live = Live(side: Side, contracts: real, entry: Option<real>, mark: Option<real>, takeProfit: Option<real>,
                       stopLoss: Option<real>, leverage: Option<real>, raw: Raw)

  type Snapshot = Option<Live>

  datatype Config = Config(id: int, user: int, account: int, profile: int, leverage: int, size: real)

  datatype Row = Row(
    user: int, account: int, config: int, profile: int, symbol: string, side: Side,
    open: bool, state: PositionState, quantity: real, current: real, original: Option<real>,
    entry: real, size: real, leverage: int, takeProfit: real, stopLoss: real, raw: Raw, openHistory: Option<int>,
    closedAt: Option<int>, closeReason: Option<string>, closePrice: Option<real>, closeOrder: Option<int>,
    closeHistory: Option<int>)

  /** What a sync was asked to do, and what it saw. */
  datatype Request = Request(config: Config, symbol: string, snapshot: Snapshot, history: Option<int>, now: int,
                             closeMissing: bool)

  /** Rows by id, and the id the next row gets. */
  datatype Table = Table(rows: map<int, Row>, next: int) {
    ghost predicate Valid() {
      forall id :: id in rows ==> id < next
    }
  }

  predicate Flat(s: Snapshot) {
    s.None? || s.value.contracts <= EPSILON
  }

  function Positive(x: Option<real>): (r: Option<real>)
    ensures r.Some? ==> r.value > 0.0
  {
    if x.Some? && x.value > 0.0 then x else None
  }

  function Or(x: Option<real>, fallback: real): real {
    if x.Some? then x.value else fallback
  }

  /** The entry price, or failing that the mark price. */
  function Price(l: Live): Option<real> {
    if Positive(l.entry).Some? then Positive(l.entry) else Positive(l.mark)
  }

  function RoundHalfEven(x: real): int {
    var down := x.Floor;
    var rest := x - down as real;
    if rest < 0.5 || (rest == 0.5 && down % 2 == 0) then down else down + 1
  }

  function Leverage(l: Live, c: Config): int {
    var live := Positive(l.leverage);
    if live.None? then c.leverage else if RoundHalfEven(live.value) < 1 then 1 else RoundHalfEven(live.value)
  }

  predicate OpenFor(r: Row, c: Config) {
    r.user == c.user && r.account == c.account && r.open
  }

  function OpenIds(t: Table, c: Config): set<int> {
    set id | id in t.rows && OpenFor(t.rows[id], c)
  }

  predicate IsNewest(id: int, ids: set<int>) {
    id in ids && forall other :: other in ids ==> other <= id
  }

  predicate KeepsState(s: PositionState) {
    s !in {Closed, Cancelled, Failed}
  }

  /** A stored number is kept when it is close to the target. */
  function Settle(stored: real, target: real): real {
    if Close(stored, target) then stored else target
  }

  /** The exchange's level, or the stored one; a level of no size means the entry price. */
  function LevelTarget(live: Option<real>, stored: real, entry: real): real {
    if Or(live, stored) <= EPSILON then entry else Or(live, stored)
  }

  function WithIdentity(r: Row, q: Request): Row
    requires !Flat(q.snapshot)
  {
    r.(symbol := q.symbol, account := q.config.account, config := q.config.id, profile := q.config.profile,
       side := q.snapshot.value.side, state := if KeepsState(r.state) then r.state else Open)
  }

  function WithAmounts(r: Row, q: Request): Row
    requires !Flat(q.snapshot)
  {
    var l := q.snapshot.value;
    r.(quantity := Settle(r.quantity, l.contracts), current := l.contracts,
       original := if r.original.None? then Some(l.contracts) else r.original,
       entry := if Price(l).Some? then Settle(r.entry, Price(l).value) else r.entry, leverage := Leverage(l, q.config))
  }

  function WithLevels(r: Row, q: Request): Row
    requires !Flat(q.snapshot)
  {
    var l := q.snapshot.value;
    r.(takeProfit := Settle(r.takeProfit, LevelTarget(Positive(l.takeProfit), r.takeProfit, r.entry)),
       stopLoss := Settle(r.stopLoss, LevelTarget(Positive(l.stopLoss), r.stopLoss, r.entry)),
       raw := if l.raw != map[] then l.raw else r.raw)
  }

  /** The newest row brought in line: who it belongs to, then its amounts, then its levels. */
  function Refreshed(r: Row, q: Request): Row
    requires !Flat(q.snapshot)
  {
    WithLevels(WithAmounts(WithIdentity(r, q), q), q)
  }

  function Created(q: Request): Row
    requires !Flat(q.snapshot) && Price(q.snapshot.value).Some?
  {
    var c, l, price := q.config, q.snapshot.value, Price(q.snapshot.value).value;
    var worth := price * l.contracts;
    Row(c.user, c.account, c.id, c.profile, q.symbol, l.side, true, Open, l.contracts, l.contracts, Some(l.contracts),
        price, if worth <= EPSILON then MaxR(c.size, 1.0) else worth, Leverage(l, c),
        Or(Positive(l.takeProfit), price), Or(Positive(l.stopLoss), price), l.raw, q.history,
        None, None, None, None, None)
  }

  const MISSING := "already_closed_on_exchange"
  const DUPLICATE := "deduplicated_on_exchange_sync"

  function Gone(r: Row, q: Request, reason: string, price: Option<real>): Row {
    r.(open := false, state := Closed, current := 0.0, closedAt := Some(q.now), closeReason := Some(reason),
       closeHistory := q.history, closePrice := price)
  }

  /** A synthetic close price equal to the entry price is dropped from a row with no close order. */
  function Normalized(r: Row): Option<real> {
    if r.closeOrder.None? && r.closePrice.Some? && Close(r.closePrice.value, r.entry) then None else r.closePrice
  }

  function Missing(r: Row, q: Request): Row {
    var mark := if q.snapshot.Some? then Positive(q.snapshot.value.mark) else None;
    Gone(r, q, MISSING, if mark.Some? then mark else Normalized(r))
  }

  function Duplicate(r: Row, q: Request): Row {
    Gone(r, q, DUPLICATE, None)
  }

  function Ended(r: Row, q: Request): Row {
    if Flat(q.snapshot) then Missing(r, q) else Duplicate(r, q)
  }

  function CloseAll(rows: map<int, Row>, ids: set<int>, q: Request): map<int, Row> {
    map id | id in rows :: if id in ids then Ended(rows[id], q) else rows[id]
  }

  ghost function Newest(ids: set<int>): (id: int)
    requires ids != {}
    ensures IsNewest(id, ids)
  {
    SomeMember(ids);
    var x :| x in ids;
    assert forall id :: id in ids ==> id == x || id in ids - {x};
    if ids == {x} then x else var y := Newest(ids - {x}); if x > y then x else y
  }

  /** The newest row refreshed and every other open row closed. */
  function Merged(rows: map<int, Row>, ids: set<int>, top: int, q: Request): map<int, Row>
    requires !Flat(q.snapshot) && top in rows
  {
    CloseAll(rows, ids - {top}, q)[top := Refreshed(rows[top], q)]
  }

  /** The table after one sync. */
  ghost function Synced(t: Table, q: Request): Table {
    var ids := OpenIds(t, q.config);
    if Flat(q.snapshot) then
      if q.closeMissing then t.(rows := CloseAll(t.rows, ids, q)) else t
    else if ids == {} then
      if Price(q.snapshot.value).None? then t else Table(t.rows[t.next := Created(q)], t.next + 1)
    else
      t.(rows := Merged(t.rows, ids, Newest(ids), q))
  }

  /** The position table and the sync over it. */
  class Positions {
    var rows: map<int, Row>
    var next: int

    ghost function View(): Table
      reads this
    {
      Table(rows, next)
    }

    constructor ()
      ensures View() == Table(map[], 1)
    {
      rows, next := map[], 1;
    }

    /** Closes the given rows one by one, as missing or as duplicates. */
    method CloseRows(ids: set<int>, q: Request)
      requires ids <= rows.Keys
      modifies `rows
      ensures rows == CloseAll(old(rows), ids, q)
    {
      var todo := ids;
      while todo != {}
        invariant todo <= ids && rows == CloseAll(old(rows), ids - todo, q)
        decreases |todo|
      {
        SomeMember(todo);
        var id :| id in todo;
        var row := rows[id].(open := false, state := Closed, closedAt := Some(q.now), closeHistory := q.history,
                             current := 0.0);
        if Flat(q.snapshot) {
          row := row.(closeReason := Some(MISSING));
          if row.closeOrder.None? && row.closePrice.Some? && Close(row.closePrice.value, row.entry) {
            row := row.(closePrice := None);
          }
          if q.snapshot.Some? && q.snapshot.value.mark.Some? && q.snapshot.value.mark.value > 0.0 {
            row := row.(closePrice := q.snapshot.value.mark);
          }
        } else {
          row := row.(closeReason := Some(DUPLICATE), closePrice := None);
        }
        rows, todo := rows[id := row], todo - {id};
      }
      assert ids - todo == ids;
    }

    /** Writes the fields of the newest row that are out of line and reports whether any was. */
    method Refresh(top: int, q: Request) returns (changed: bool)
      requires top in rows && !Flat(q.snapshot)
      modifies `rows
      ensures rows == old(rows)[top := Refreshed(old(rows)[top], q)]
      ensures changed <==> Refreshed(old(rows)[top], q) != old(rows)[top]
    {
      var row, a := RefreshIdentity(rows[top], q);
      var b, c;
      row, b := RefreshAmounts(row, q);
      row, c := RefreshLevels(row, q);
      rows, changed := rows[top := row], a || b || c;
    }

    static method RefreshIdentity(r: Row, q: Request) returns (row: Row, changed: bool)
      requires !Flat(q.snapshot)
      ensures row == WithIdentity(r, q) && (changed <==> row != r)
    {
      var l := q.snapshot.value;
      row, changed := r, false;
      if row.symbol != q.symbol { row, changed := row.(symbol := q.symbol), true; }
      if row.account != q.config.account { row, changed := row.(account := q.config.account), true; }
      if row.config != q.config.id { row, changed := row.(config := q.config.id), true; }
      if row.profile != q.config.profile { row, changed := row.(profile := q.config.profile), true; }
      if row.side != l.side { row, changed := row.(side := l.side), true; }
      if !KeepsState(row.state) { row, changed := row.(state := Open), true; }
    }

    static method RefreshAmounts(r: Row, q: Request) returns (row: Row, changed: bool)
      requires !Flat(q.snapshot)
      ensures row == WithAmounts(r, q) && (changed <==> row != r)
    {
      var l := q.snapshot.value;
      row, changed := r, false;
      if !Close(row.quantity, l.contracts) { row, changed := row.(quantity := l.contracts), true; }
      if row.current != l.contracts { row, changed := row.(current := l.contracts), true; }
      if row.original.None? { row, changed := row.(original := Some(l.contracts)), true; }
      if Price(l).Some? && !Close(row.entry, Price(l).value) { row, changed := row.(entry := Price(l).value), true; }
      if row.leverage != Leverage(l, q.config) { row, changed := row.(leverage := Leverage(l, q.config)), true; }
    }

    static method RefreshLevels(r: Row, q: Request) returns (row: Row, changed: bool)
      requires !Flat(q.snapshot)
      ensures row == WithLevels(r, q) && (changed <==> row != r)
    {
      var l := q.snapshot.value;
      row, changed := r, false;
      var target := Or(Positive(l.takeProfit), row.takeProfit);
      if target <= EPSILON { target := row.entry; }
      if !Close(row.takeProfit, target) { row, changed := row.(takeProfit := target), true; }
      target := Or(Positive(l.stopLoss), row.stopLoss);
      if target <= EPSILON { target := row.entry; }
      if !Close(row.stopLoss, target) { row, changed := row.(stopLoss := target), true; }
      if l.raw != map[] && row.raw != l.raw { row, changed := row.(raw := l.raw), true; }
    }

    /** Returns the open row that remains, if any, and whether anything was written. */
    method Sync(q: Request) returns (position: Option<int>, changed: bool)
      modifies this
      ensures View() == Synced(old(View()), q)
      ensures changed <==> View() != old(View())
      ensures position.None? <==> OpenIds(View(), q.config) == {}
      ensures position.Some? ==> IsNewest(position.value, OpenIds(View(), q.config))
    {
      OpenAfter(View(), q);
      var ids := OpenIds(Table(rows, next), q.config);
      position, changed := None, false;
      if ids != {} {
        var top := Top(ids);
        position := Some(top);
        if !Flat(q.snapshot) {
          CloseRows(ids - {top}, q);
          changed := Refresh(top, q);
          changed := changed || ids - {top} != {};
        } else if q.closeMissing {
          CloseRows(ids, q);
          position, changed := None, true;
        }
      } else if !Flat(q.snapshot) && Price(q.snapshot.value).Some? {
        rows, next, position, changed := rows[next := Created(q)], next + 1, Some(next), true;
      }
    }

    method Top(ids: set<int>) returns (top: int)
      requires ids != {}
      ensures top == Newest(ids)
    {
      SomeMember(ids);
      top :| top in ids;
      var todo := ids - {top};
      assert ids - todo == {top};
      while todo != {}
        invariant todo <= ids && top in ids - todo && forall id :: id in ids - todo ==> id <= top
        decreases |todo|
      {
        SomeMember(todo);
        var id :| id in todo;
        assert ids - (todo - {id}) == (ids - todo) + {id};
        todo := todo - {id};
        if id > top { top := id; }
      }
      assert ids - todo == ids;
      assert IsNewest(top, ids) && IsNewest(Newest(ids), ids);
    }
  }

  // ----- Convergence --------------------------------------------------------------------

  /** Which rows of the account are open after a sync. */
  lemma OpenAfter(t: Table, q: Request)
    ensures var ids, after := OpenIds(t, q.config), OpenIds(Synced(t, q), q.config);
            after == if Flat(q.snapshot) then (if q.closeMissing then {} else ids)
                     else if ids != {} then {Newest(ids)}
                     else if Price(q.snapshot.value).Some? then {t.next} else {}
  {
    var ids := OpenIds(t, q.config);
    if !Flat(q.snapshot) && ids != {} {
      MergedOpen(t, q, Newest(ids));
    } else if !Flat(q.snapshot) && Price(q.snapshot.value).Some? {
      CreatedOpen(t, q);
    } else if Flat(q.snapshot) && q.closeMissing {
      ClosedOut(t, q);
    }
  }

  lemma ClosedOut(t: Table, q: Request)
    ensures OpenIds(Table(CloseAll(t.rows, OpenIds(t, q.config), q), t.next), q.config) == {}
  {
    var rows := CloseAll(t.rows, OpenIds(t, q.config), q);
    forall id | id in rows ensures !OpenFor(rows[id], q.config) {
      assert id in OpenIds(t, q.config) ==> !rows[id].open;
    }
  }

  lemma CreatedOpen(t: Table, q: Request)
    requires !Flat(q.snapshot) && Price(q.snapshot.value).Some? && OpenIds(t, q.config) == {}
    ensures OpenIds(Table(t.rows[t.next := Created(q)], t.next + 1), q.config) == {t.next}
  {
    var rows := t.rows[t.next := Created(q)];
    assert OpenFor(rows[t.next], q.config);
    forall id | id in rows && id != t.next ensures !OpenFor(rows[id], q.config) {
      assert id !in OpenIds(t, q.config);
    }
  }

  lemma MergedOpen(t: Table, q: Request, top: int)
    requires !Flat(q.snapshot) && top in OpenIds(t, q.config)
    ensures OpenIds(Table(Merged(t.rows, OpenIds(t, q.config), top, q), t.next), q.config) == {top}
  {
    var rows := Merged(t.rows, OpenIds(t, q.config), top, q);
    assert OpenFor(rows[top], q.config);
    forall id | id in rows && id != top ensures !OpenFor(rows[id], q.config) {
      if id in OpenIds(t, q.config) {
        assert !rows[id].open;
      } else {
        assert rows[id] == t.rows[id];
      }
    }
  }

  /** The row tells the exchange's story, up to the tolerance. */
  predicate Agrees(r: Row, q: Request)
    requires !Flat(q.snapshot)
  {
    var l := q.snapshot.value;
    && r.side == l.side && r.symbol == q.symbol && r.config == q.config.id && r.profile == q.config.profile
    && KeepsState(r.state) && Close(r.quantity, l.contracts) && r.current == l.contracts && r.original.Some?
    && r.leverage == Leverage(l, q.config)
    && (Price(l).Some? ==> Close(r.entry, Price(l).value))
  }

  lemma RefreshedAgrees(r: Row, q: Request)
    requires !Flat(q.snapshot)
    ensures Agrees(Refreshed(r, q), q)
  {}

  lemma CreatedAgrees(q: Request)
    requires !Flat(q.snapshot) && Price(q.snapshot.value).Some?
    ensures Agrees(Created(q), q) && OpenFor(Created(q), q.config)
  {}

  predicate OnlyOpen(t: Table, q: Request, id: int) {
    OpenIds(t, q.config) == {id} && id in t.rows
  }

  /** Whatever rows were open before, one sync leaves the account as the exchange has it. */
  lemma SyncConverges(t: Table, q: Request)
    requires q.closeMissing
    ensures Flat(q.snapshot) ==> OpenIds(Synced(t, q), q.config) == {}
    ensures !Flat(q.snapshot) && (Price(q.snapshot.value).Some? || OpenIds(t, q.config) != {})
            ==> exists id :: OnlyOpen(Synced(t, q), q, id) && Agrees(Synced(t, q).rows[id], q)
  {
    OpenAfter(t, q);
    var ids, after := OpenIds(t, q.config), Synced(t, q);
    if !Flat(q.snapshot) && ids != {} {
      var top := Newest(ids);
      RefreshedAgrees(t.rows[top], q);
      assert OnlyOpen(after, q, top) && after.rows[top] == Refreshed(t.rows[top], q);
    } else if !Flat(q.snapshot) && Price(q.snapshot.value).Some? {
      CreatedAgrees(q);
      assert OnlyOpen(after, q, t.next) && after.rows[t.next] == Created(q);
    }
  }

  /** No row is lost, rows of other accounts and closed rows are not touched. */
  lemma SyncTouchesOnlyOpenRows(t: Table, q: Request, id: int)
    requires t.Valid() && id in t.rows
    ensures Synced(t, q).Valid() && id in Synced(t, q).rows
    ensures !OpenFor(t.rows[id], q.config) ==> Synced(t, q).rows[id] == t.rows[id]
    ensures !Synced(t, q).rows[id].open && t.rows[id].open
            ==> Synced(t, q).rows[id].state == Closed && Synced(t, q).rows[id].current == 0.0
  {}

  // ----- What the rows say afterwards ---------------------------------------------------

  predicate Reported(x: Option<real>) {
    x.Some? && x.value > 0.0
  }

  predicate IsLive(q: Request) {
    q.snapshot.Some? && q.snapshot.value.contracts > EPSILON
  }

  predicate Within(x: real, y: real) {
    -EPSILON <= x - y <= EPSILON
  }

  /** A stored number gives way to a new one only if they differ by more than the tolerance. */
  predicate Adopted(stored: real, target: real, result: real) {
    result == if Within(stored, target) then stored else target
  }

  predicate IsOpenRow(t: Table, q: Request, id: int) {
    id in t.rows && t.rows[id].user == q.config.user && t.rows[id].account == q.config.account && t.rows[id].open
  }

  ghost predicate IsNewestOpen(t: Table, q: Request, id: int) {
    IsOpenRow(t, q, id) && forall other :: IsOpenRow(t, q, other) ==> other <= id
  }

  /** A live position leaves one row open: the newest open one, or a new one if there was none and a price is known. */
  lemma WhichRowIsOpen(t: Table, q: Request, id: int)
    requires t.Valid() && IsLive(q)
    ensures IsOpenRow(Synced(t, q), q, id)
       <==> (IsNewestOpen(t, q, id)
             || (id == t.next && (forall other :: !IsOpenRow(t, q, other))
                 && (Reported(q.snapshot.value.entry) || Reported(q.snapshot.value.mark))))
    ensures (forall other :: !IsOpenRow(t, q, other)) && !IsOpenRow(Synced(t, q), q, t.next) ==> Synced(t, q) == t
  {
    OpenAfter(t, q);
    assert forall x :: IsOpenRow(t, q, x) <==> x in OpenIds(t, q.config);
    assert IsOpenRow(Synced(t, q), q, id) <==> id in OpenIds(Synced(t, q), q.config);
    if OpenIds(t, q.config) == {} {
      assert forall other :: !IsOpenRow(t, q, other);
    } else {
      assert IsNewest(Newest(OpenIds(t, q.config)), OpenIds(t, q.config));
      assert IsOpenRow(t, q, Newest(OpenIds(t, q.config)));
    }
  }

  /** The row that a live position leaves open was refreshed or created. */
  lemma OpenRowIs(t: Table, q: Request, id: int)
    requires t.Valid() && IsLive(q) && IsOpenRow(Synced(t, q), q, id)
    ensures id in t.rows ==> Synced(t, q).rows[id] == Refreshed(t.rows[id], q)
    ensures id !in t.rows ==> Price(q.snapshot.value).Some? && Synced(t, q).rows[id] == Created(q)
  {
    OpenAfter(t, q);
    assert id in OpenIds(Synced(t, q), q.config);
    if OpenIds(t, q.config) != {} {
      assert IsNewest(Newest(OpenIds(t, q.config)), OpenIds(t, q.config));
    }
  }

  /**
   * The entry price of the row that stays open: the exchange's entry price within tolerance;
   * the mark price only if the exchange gives no entry price; and if it gives neither, the
   * price the row already had. A stored price within tolerance is not rewritten.
   */
  lemma EntryPriceIsTheExchanges(t: Table, q: Request, id: int)
    requires t.Valid() && IsLive(q) && IsOpenRow(Synced(t, q), q, id)
    ensures var l, entry := q.snapshot.value, Synced(t, q).rows[id].entry;
            && (Reported(l.entry) ==> Within(entry, l.entry.value))
            && (!Reported(l.entry) && Reported(l.mark) ==> Within(entry, l.mark.value))
            && (!Reported(l.entry) && !Reported(l.mark) ==> id in t.rows && entry == t.rows[id].entry)
            && (id !in t.rows ==> entry == (if Reported(l.entry) then l.entry.value else l.mark.value))
            && (id in t.rows && Reported(l.entry) ==> Adopted(t.rows[id].entry, l.entry.value, entry))
            && (id in t.rows && !Reported(l.entry) && Reported(l.mark)
                ==> Adopted(t.rows[id].entry, l.mark.value, entry))
  {
    OpenRowIs(t, q, id);
  }

  /** How many contracts it is for, and how much that was worth when the row was made. */
  lemma SizeIsTheExchanges(t: Table, q: Request, id: int)
    requires t.Valid() && IsLive(q) && IsOpenRow(Synced(t, q), q, id)
    ensures var l, row := q.snapshot.value, Synced(t, q).rows[id];
            && row.side == l.side && row.current == l.contracts && Within(row.quantity, l.contracts)
            && (id in t.rows ==> Adopted(t.rows[id].quantity, l.contracts, row.quantity)
                                 && row.state == (if t.rows[id].state in {Closed, Cancelled, Failed} then Open
                                                  else t.rows[id].state)
                                 && row.size == t.rows[id].size && row.openHistory == t.rows[id].openHistory
                                 && row.original == (if t.rows[id].original.Some? then t.rows[id].original
                                                     else Some(l.contracts)))
            && (id !in t.rows ==> row.quantity == l.contracts && row.original == Some(l.contracts)
                                  && row.openHistory == q.history && row.state == Open
                                  && row.size == (if row.entry * l.contracts > EPSILON then row.entry * l.contracts
                                                  else if q.config.size > 1.0 then q.config.size else 1.0))
  {
    OpenRowIs(t, q, id);
  }

  /** The leverage is the exchange's, rounded to the nearest and from halves to the even one, and at least one. */
  lemma LeverageIsRounded(t: Table, q: Request, id: int)
    requires t.Valid() && IsLive(q) && IsOpenRow(Synced(t, q), q, id)
    ensures var given, leverage := q.snapshot.value.leverage, Synced(t, q).rows[id].leverage;
            if !Reported(given) then leverage == q.config.leverage
            else if given.value <= 0.5 then leverage == 1
            else
              && -0.5 <= given.value - leverage as real <= 0.5
              && (given.value - leverage as real in {-0.5, 0.5} ==> leverage % 2 == 0)
  {
    OpenRowIs(t, q, id);
  }

  /**
   * A level after a refresh: the exchange's if it has a size that counts, else the stored one
   * if that has, else the entry price.
   */
  predicate LevelFollows(given: Option<real>, stored: real, entry: real, level: real) {
    if Reported(given) then Adopted(stored, if given.value > EPSILON then given.value else entry, level)
    else if stored > EPSILON then level == stored
    else Adopted(stored, entry, level)
  }

  lemma LevelsFollowTheExchange(t: Table, q: Request, id: int)
    requires t.Valid() && IsLive(q) && IsOpenRow(Synced(t, q), q, id)
    ensures var l, row := q.snapshot.value, Synced(t, q).rows[id];
            if id in t.rows then
              && LevelFollows(l.takeProfit, t.rows[id].takeProfit, row.entry, row.takeProfit)
              && LevelFollows(l.stopLoss, t.rows[id].stopLoss, row.entry, row.stopLoss)
              && row.raw == (if l.raw != map[] then l.raw else t.rows[id].raw)
            else
              && row.takeProfit == (if Reported(l.takeProfit) then l.takeProfit.value else row.entry)
              && row.stopLoss == (if Reported(l.stopLoss) then l.stopLoss.value else row.entry)
              && row.raw == l.raw
  {
    OpenRowIs(t, q, id);
  }

  /** The close price of a row that the exchange has no position for. */
  predicate PricedAsMissing(was: Row, row: Row, q: Request) {
    if q.snapshot.Some? && Reported(q.snapshot.value.mark) then row.closePrice == q.snapshot.value.mark
    else if was.closeOrder.None? && was.closePrice.Some? && Within(was.closePrice.value, was.entry)
    then row.closePrice.None?
    else row.closePrice == was.closePrice
  }

  /**
   * Which open rows end and how: all of them if the exchange has no position and the caller
   * wants them closed, all but the newest if it has one. A row ends with the reason and the
   * close price of its case and keeps everything else; no other row is touched.
   */
  lemma EndedRowsSayWhy(t: Table, q: Request, id: int)
    requires t.Valid() && id in t.rows
    ensures var was, row := t.rows[id], Synced(t, q).rows[id];
            if IsOpenRow(t, q, id) && (if IsLive(q) then !IsNewestOpen(t, q, id) else q.closeMissing) then
              && !row.open && row.state == Closed && row.current == 0.0
              && row.closedAt == Some(q.now) && row.closeHistory == q.history
              && (if IsLive(q) then row.closeReason == Some("deduplicated_on_exchange_sync") && row.closePrice.None?
                  else row.closeReason == Some("already_closed_on_exchange") && PricedAsMissing(was, row, q))
              && row == was.(open := false, state := Closed, current := 0.0, closedAt := row.closedAt,
                             closeReason := row.closeReason, closeHistory := q.history, closePrice := row.closePrice)
            else row == was || (IsLive(q) && IsNewestOpen(t, q, id) && row.open)
  {
    assert IsOpenRow(t, q, id) <==> id in OpenIds(t, q.config);
    if OpenIds(t, q.config) != {} {
      var top := Newest(OpenIds(t, q.config));
      assert IsNewest(top, OpenIds(t, q.config));
      assert IsOpenRow(t, q, top);
      assert forall x :: IsOpenRow(t, q, x) <==> x in OpenIds(t, q.config);
    }
  }

  // ----- Repetition ---------------------------------------------------------------------

  /** The same question about the same snapshot, perhaps at another time. */
  predicate SameView(q: Request, again: Request) {
    && q.config == again.config && q.symbol == again.symbol && q.snapshot == again.snapshot
    && q.closeMissing == again.closeMissing
  }

  lemma LevelsSettle(live: Option<real>, stored: real, entry: real)
    ensures var once := Settle(stored, LevelTarget(live, stored, entry));
            Settle(once, LevelTarget(live, once, entry)) == once
  {}

  lemma RefreshIsIdempotent(r: Row, q: Request, again: Request)
    requires !Flat(q.snapshot) && SameView(q, again)
    ensures Refreshed(Refreshed(r, q), again) == Refreshed(r, q)
  {
    var l, once := q.snapshot.value, Refreshed(r, q);
    assert WithIdentity(once, again) == once;
    assert WithAmounts(once, again) == once;
    LevelsSettle(Positive(l.takeProfit), r.takeProfit, once.entry);
    LevelsSettle(Positive(l.stopLoss), r.stopLoss, once.entry);
    assert WithLevels(once, again) == once;
  }

  /** A level too small to count, stored as it is on creation but read as the entry price later. */
  predicate Jumps(level: Option<real>, price: real) {
    Positive(level).Some? && level.value <= EPSILON && !Close(level.value, price)
  }

  predicate CreatesWithTinyLevel(t: Table, q: Request) {
    && !Flat(q.snapshot) && OpenIds(t, q.config) == {} && Price(q.snapshot.value).Some?
    && (Jumps(q.snapshot.value.takeProfit, Price(q.snapshot.value).value)
        || Jumps(q.snapshot.value.stopLoss, Price(q.snapshot.value).value))
  }

  lemma RefreshAfterCreation(q: Request, again: Request)
    requires !Flat(q.snapshot) && Price(q.snapshot.value).Some? && SameView(q, again)
    ensures var l, price := q.snapshot.value, Price(q.snapshot.value).value;
            Refreshed(Created(q), again) == Created(q) <==> !Jumps(l.takeProfit, price) && !Jumps(l.stopLoss, price)
  {
    var row := Created(q);
    assert WithIdentity(row, again) == row;
    assert WithAmounts(row, again) == row;
    var levels := WithLevels(row, again);
    assert levels == row.(takeProfit := levels.takeProfit, stopLoss := levels.stopLoss);
  }

  /** Refreshing the one open row rewrites that row alone. */
  lemma OneOpenRow(t: Table, top: int, q: Request)
    requires !Flat(q.snapshot) && OpenIds(t, q.config) == {top}
    ensures Synced(t, q) == t.(rows := t.rows[top := Refreshed(t.rows[top], q)])
  {
    assert top in OpenIds(t, q.config) && Newest({top}) == top;
    assert {top} - {top} == {};
    assert CloseAll(t.rows, {}, q) == t.rows;
  }

  /**
   * A second sync of the same snapshot changes nothing, except right after it created a
   * row whose take-profit or stop-loss the exchange gave as a positive size within the
   * tolerance of zero and away from the entry price.
   */
  lemma SecondSyncChangesNothing(t: Table, q: Request, again: Request)
    requires SameView(q, again)
    ensures Synced(Synced(t, q), again) == Synced(t, q) <==> !CreatesWithTinyLevel(t, q)
  {
    OpenAfter(t, q);
    var ids, after := OpenIds(t, q.config), Synced(t, q);
    if Flat(q.snapshot) {
      if q.closeMissing {
        assert CloseAll(after.rows, {}, again) == after.rows;
      }
    } else if ids != {} {
      var top := Newest(ids);
      OneOpenRow(after, top, again);
      RefreshIsIdempotent(t.rows[top], q, again);
      assert after.rows[top := after.rows[top]] == after.rows;
    } else if Price(q.snapshot.value).Some? {
      OneOpenRow(after, t.next, again);
      RefreshAfterCreation(q, again);
      if Refreshed(Created(q), again) == Created(q) {
        assert after.rows[t.next := after.rows[t.next]] == after.rows;
      } else {
        assert Synced(after, again).rows[t.next] != after.rows[t.next];
      }
    }
  }

  /** From the second sync on, repetition never changes anything. */
  lemma ThirdSyncChangesNothing(t: Table, q: Request, again: Request, third: Request)
    requires SameView(q, again) && SameView(q, third)
    ensures Synced(Synced(Synced(t, q), again), third) == Synced(Synced(t, q), again)
  {
    OpenAfter(t, q);
    SecondSyncChangesNothing(Synced(t, q), again, third);
  }

  /** The exception exists: a take-profit of half the tolerance on an empty table. */
  lemma TinyTakeProfitIsRewritten(c: Config, symbol: string)
    ensures var l := Live(Long, 1.0, Some(100.0), None, Some(EPSILON / 2.0), None, None, map[]);
            var q := Request(c, symbol, Some(l), None, 0, true);
            CreatesWithTinyLevel(Table(map[], 1), q)
            && Synced(Synced(Table(map[], 1), q), q) != Synced(Table(map[], 1), q)
  {
    var l := Live(Long, 1.0, Some(100.0), None, Some(EPSILON / 2.0), None, None, map[]);
    var q := Request(c, symbol, Some(l), None, 0, true);
    SecondSyncChangesNothing(Table(map[], 1), q, q);
  }
}
