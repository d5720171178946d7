/**
 * Live paper trading: closed trades of a replayed strategy are stored incrementally.
 *
 * Each poll replays the strategy, keeps the trades that closed after the watermark and
 * no later than now, inserts them under a unique key and then moves the watermark. A
 * poll that fails part-way keeps its inserts and leaves the watermark where it was.
 */
module LivePaper {
  import opened Common

  /** One entry of a replay's trade list; anything but a closed trade is passed over. */
  datatype RawTrade = Junk | Trade(isOpen: bool, entry: Option<int>, exit: Option<int>,
                                   side: string, price: real, pnl: real)

  datatype Row = Row(revision: int, entry: int, exit: int, side: string, price: real, pnl: real)

  datatype Key = Key(revision: int, entry: int, exit: int, side: string, price: real)

  function KeyOf(r: Row): Key {
    Key(r.revision, r.entry, r.exit, r.side, r.price)
  }

  predicate IsClosed(t: RawTrade) {
    t.Trade? && !t.isOpen && t.entry.Some? && t.exit.Some?
  }

  function RowOf(t: RawTrade, revision: int): Row
    requires IsClosed(t)
  {
    Row(revision, t.entry.value, t.exit.value, t.side, t.price, t.pnl)
  }

  predicate After(watermark: Option<int>, time: int) {
    watermark.None? || time > watermark.value
  }

  predicate Due(exit: int, watermark: Option<int>, until: int) {
    After(watermark, exit) && exit <= until
  }

  predicate HasKey(table: seq<Row>, r: Row) {
    exists i :: 0 <= i < |table| && KeyOf(table[i]) == KeyOf(r)
  }

  /** The unique constraint of the table. */
  predicate KeysDistinct(table: seq<Row>) {
    forall i, j :: 0 <= i < j < |table| ==> KeyOf(table[i]) != KeyOf(table[j])
  }

  function Insert(table: seq<Row>, r: Row): seq<Row> {
    if HasKey(table, r) then table else table + [r]
  }

  function Replay(table: seq<Row>, ts: seq<RawTrade>, revision: int, watermark: Option<int>, until: int): seq<Row> {
    if ts == [] then table
    else
      var before := Replay(table, ts[..|ts| - 1], revision, watermark, until);
      var t := ts[|ts| - 1];
      if IsClosed(t) && Due(t.exit.value, watermark, until) then Insert(before, RowOf(t, revision)) else before
  }

  function Newest(ts: seq<RawTrade>, watermark: Option<int>, until: int): Option<int> {
    if ts == [] then watermark
    else
      var before := Newest(ts[..|ts| - 1], watermark, until);
      var t := ts[|ts| - 1];
      if IsClosed(t) && Due(t.exit.value, watermark, until) && After(before, t.exit.value)
      then t.exit else before
  }

  datatype Book = Book(revision: int, watermark: Option<int>, table: seq<Row>)

  /** One poll: what the replay returned, the present time, and where it broke off, if it did. */
  datatype Poll = Poll(trades: seq<RawTrade>, until: int, failsAt: Option<nat>) {
    predicate Succeeds() { failsAt.None? || failsAt.value >= |trades| }
  }

  function Apply(b: Book, p: Poll): Book {
    if p.Succeeds() then
      b.(table := Replay(b.table, p.trades, b.revision, b.watermark, p.until),
         watermark := Newest(p.trades, b.watermark, p.until))
    else
      b.(table := Replay(b.table, p.trades[..p.failsAt.value], b.revision, b.watermark, p.until))
  }

  function Run(b: Book, polls: seq<Poll>): Book {
    if polls == [] then b else Apply(Run(b, polls[..|polls| - 1]), polls[|polls| - 1])
  }

  /** The profile row and its trade table. */
  class Profile {
    var strategyId: int
    var revision: int
    var running: bool
    var watermark: Option<int>
    var table: seq<Row>

    ghost function View(): Book
      reads this
    {
      Book(revision, watermark, table)
    }

    constructor (strategyId: int)
      ensures this.strategyId == strategyId && !running && View() == Book(1, None, [])
    {
      this.strategyId := strategyId;
      revision, running, watermark, table := 1, false, None, [];
    }

    method CatchUp(trades: seq<RawTrade>, until: int, failsAt: Option<nat>) returns (ok: bool)
      modifies `watermark, `table
      ensures ok == Poll(trades, until, failsAt).Succeeds()
      ensures View() == Apply(old(View()), Poll(trades, until, failsAt))
    {
      var maxSeen := watermark;
      var i := 0;
      while i < |trades|
        invariant 0 <= i <= |trades| && watermark == old(watermark)
        invariant failsAt.Some? ==> i <= failsAt.value
        invariant table == Replay(old(table), trades[..i], revision, old(watermark), until)
        invariant maxSeen == Newest(trades[..i], old(watermark), until)
      {
        if failsAt == Some(i) { return false; }
        assert trades[..i + 1][..i] == trades[..i];
        var t := trades[i];
        i := i + 1;
        if !IsClosed(t) { continue; }
        if watermark.Some? && t.exit.value <= watermark.value { continue; }
        if t.exit.value > until { continue; }
        if maxSeen.None? || t.exit.value > maxSeen.value { maxSeen := t.exit; }
        var row := Row(revision, t.entry.value, t.exit.value, t.side, t.price, t.pnl);
        if !(exists k :: 0 <= k < |table| && KeyOf(table[k]) == KeyOf(row)) { table := table + [row]; }
      }
      assert trades[..|trades|] == trades;
      watermark := maxSeen;
      ok := true;
    }

    /** A poll of a stopped profile does nothing. */
    method PollProfile(trades: seq<RawTrade>, now: int, failsAt: Option<nat>)
      modifies `watermark, `table
      ensures View() == if running then Apply(old(View()), Poll(trades, now, failsAt)) else old(View())
    {
      if running {
        var ok := CatchUp(trades, now, failsAt);
      }
    }

    /** Starting a stopped profile moves the watermark to now. */
    method SetRunning(isRunning: bool, now: int)
      modifies `running, `watermark
      ensures running == isRunning
      ensures View() == if isRunning && !old(running) then Started(old(View()), now) else old(View())
    {
      var turningOn := isRunning && !running;
      running := isRunning;
      if turningOn { watermark := Some(now); }
    }

    /**
     * Switching strategy replays the old one up to now and opens a new revision. A replay
     * that fails aborts the switch, and nothing of it is committed.
     */
    method SwitchStrategy(newStrategyId: int, oldTrades: seq<RawTrade>, now: int,
                          failsAt: Option<nat>) returns (ok: bool)
      modifies this
      ensures ok <==> newStrategyId == old(strategyId) || Poll(oldTrades, now, failsAt).Succeeds()
      ensures running == old(running) && strategyId == if ok then newStrategyId else old(strategyId)
      ensures View() == if ok && newStrategyId != old(strategyId) then Switched(old(View()), oldTrades, now, running)
                        else old(View())
    {
      ok := true;
      if newStrategyId != strategyId {
        var committed := table;
        ok := CatchUp(oldTrades, now, failsAt);
        if ok {
          strategyId := newStrategyId;
          revision := revision + 1;
          watermark := if running then Some(now) else None;
        } else {
          table := committed;
        }
      }
    }
  }

  function Started(b: Book, now: int): Book {
    b.(watermark := Some(now))
  }

  function Switched(b: Book, oldTrades: seq<RawTrade>, now: int, running: bool): Book {
    Apply(b, Poll(oldTrades, now, None)).(revision := b.revision + 1, watermark := if running then Some(now) else None)
  }

  // ----- One replay -----------------------------------------------------------------

  function Rows(ts: seq<RawTrade>, revision: int): set<Row> {
    set t | t in ts && IsClosed(t) :: RowOf(t, revision)
  }

  predicate KeysIdentify(rows: set<Row>) {
    forall r, r' :: r in rows && r' in rows && KeyOf(r) == KeyOf(r') ==> r == r'
  }

  lemma {:induction false} ReplayContents(table: seq<Row>, ts: seq<RawTrade>, revision: int,
                                          watermark: Option<int>, until: int)
    requires KeysIdentify(Rows(ts, revision))
    ensures var after := Replay(table, ts, revision, watermark, until);
            && table <= after
            && (forall r :: r in after <==>
                  r in table || (r in Rows(ts, revision) && Due(r.exit, watermark, until) && !HasKey(table, r)))
            && (KeysDistinct(table) ==> KeysDistinct(after))
  {
    if ts != [] {
      var init, t := ts[..|ts| - 1], ts[|ts| - 1];
      RowsExtend(init, t, revision);
      assert ts == init + [t];
      ReplayContents(table, init, revision, watermark, until);
      if IsClosed(t) && Due(t.exit.value, watermark, until) {
        InsertContents(table, Replay(table, init, revision, watermark, until), RowOf(t, revision),
                       Rows(init, revision), watermark, until);
      }
    }
  }

  lemma RowsExtend(ts: seq<RawTrade>, t: RawTrade, revision: int)
    ensures Rows(ts + [t], revision)
         == Rows(ts, revision) + if IsClosed(t) then {RowOf(t, revision)} else {}
  {
    assert forall x :: x in ts + [t] <==> x in ts || x == t;
  }

  lemma InsertContents(table: seq<Row>, before: seq<Row>, r: Row, rows: set<Row>, watermark: Option<int>, until: int)
    requires KeysIdentify(rows + {r}) && Due(r.exit, watermark, until) && table <= before
    requires forall x :: x in before
               <==> x in table || (x in rows && Due(x.exit, watermark, until) && !HasKey(table, x))
    ensures var after := Insert(before, r);
            && table <= after
            && (forall x :: x in after <==>
                  x in table || (x in rows + {r} && Due(x.exit, watermark, until) && !HasKey(table, x)))
  {
    if HasKey(before, r) {
      var i :| 0 <= i < |before| && KeyOf(before[i]) == KeyOf(r);
      assert before[i] in before;
      if before[i] in table {
        var k :| 0 <= k < |table| && table[k] == before[i];
        assert HasKey(table, r);
      }
    }
  }

  /** The watermark after a successful replay: the newest due exit, or where it was. */
  ghost predicate IsNewest(rows: set<Row>, watermark: Option<int>, until: int, w: Option<int>) {
    && (forall r :: r in rows && Due(r.exit, watermark, until) ==> w.Some? && r.exit <= w.value)
    && (w == watermark || exists r :: r in rows && Due(r.exit, watermark, until) && w == Some(r.exit))
  }

  lemma {:induction false} NewestContents(ts: seq<RawTrade>, revision: int, watermark: Option<int>, until: int)
    ensures IsNewest(Rows(ts, revision), watermark, until, Newest(ts, watermark, until))
    ensures watermark.Some? ==> Newest(ts, watermark, until).Some?
                                && watermark.value <= Newest(ts, watermark, until).value
  {
    if ts != [] {
      var init, t := ts[..|ts| - 1], ts[|ts| - 1];
      NewestContents(init, revision, watermark, until);
      RowsExtend(init, t, revision);
      assert ts == init + [t];
      if IsClosed(t) { assert RowOf(t, revision) in Rows(ts, revision); }
    }
  }

  lemma NewestUnique(rows: set<Row>, watermark: Option<int>, until: int, w: Option<int>, w': Option<int>)
    requires IsNewest(rows, watermark, until, w) && IsNewest(rows, watermark, until, w')
    ensures w == w'
  {}

  // ----- Sequences of polls -----------------------------------------------------------

  /**
   * The polls see one consistent history: times do not go back, and what a poll at time
   * u knows about trades closed by u is what the last poll knows about them. A fixed
   * trade list is the special case in which all polls see the same list.
   */
  ghost predicate Consistent(polls: seq<Poll>, rows: set<Row>, revision: int) {
    && (forall i, j :: 0 <= i < j < |polls| ==> polls[i].until <= polls[j].until)
    && (forall i, r :: 0 <= i < |polls| && r in Rows(polls[i].trades, revision) && r.exit <= polls[i].until
          ==> r in rows)
    && (forall i, r :: 0 <= i < |polls| && r in rows && r.exit <= polls[i].until
          ==> r in Rows(polls[i].trades, revision))
    && (forall i :: 0 <= i < |polls| ==> KeysIdentify(Rows(polls[i].trades, revision)))
  }

  /** What holds after any polls up to time `until`, failed ones included. */
  ghost predicate Progress(rows: set<Row>, start: Book, now: Book, until: int) {
    && now.revision == start.revision && start.table <= now.table
    && (forall r :: r in now.table ==>
          r in start.table || (r in rows && Due(r.exit, start.watermark, until) && !HasKey(start.table, r)))
    && (forall r :: r in rows && Due(r.exit, start.watermark, until) && !After(now.watermark, r.exit)
          ==> r in now.table || HasKey(start.table, r))
    && (now.watermark == start.watermark
        || exists r :: r in rows && Due(r.exit, start.watermark, until) && now.watermark == Some(r.exit))
    && (start.watermark.Some? ==> now.watermark.Some? && start.watermark.value <= now.watermark.value)
    && (KeysDistinct(start.table) ==> KeysDistinct(now.table))
  }

  /** What a successful poll at time `until` leaves behind. */
  ghost predicate Complete(rows: set<Row>, start: Book, now: Book, until: int) {
    && (forall r :: r in now.table <==>
          r in start.table || (r in rows && Due(r.exit, start.watermark, until) && !HasKey(start.table, r)))
    && IsNewest(rows, start.watermark, until, now.watermark)
  }

  lemma HasKeyWidens(table: seq<Row>, wider: seq<Row>, r: Row)
    requires table <= wider
    ensures HasKey(table, r) ==> HasKey(wider, r)
  {
    if HasKey(table, r) {
      var k :| 0 <= k < |table| && KeyOf(table[k]) == KeyOf(r);
      assert wider[k] == table[k];
    }
  }

  /** A row that is new to the start but whose key is taken now is stored now. */
  lemma TakenKeyIsStored(rows: set<Row>, start: Book, now: Book, until: int, r: Row)
    requires Progress(rows, start, now, until) && KeysIdentify(rows)
    requires r in rows && HasKey(now.table, r) && !HasKey(start.table, r)
    ensures r in now.table
  {
    var k :| 0 <= k < |now.table| && KeyOf(now.table[k]) == KeyOf(r);
    assert now.table[k] in now.table;
  }

  ghost predicate PollSees(p: Poll, rows: set<Row>, revision: int) {
    && (forall r :: r in Rows(p.trades, revision) && r.exit <= p.until ==> r in rows)
    && (forall r :: r in rows && r.exit <= p.until ==> r in Rows(p.trades, revision))
    && KeysIdentify(Rows(p.trades, revision))
  }

  /** The rows a (possibly partial) replay adds keep every row accounted for. */
  lemma ReplayKeepsProgress(rows: set<Row>, start: Book, now: Book, was: int, p: Poll, n: nat)
    requires Progress(rows, start, now, was) && was <= p.until && KeysIdentify(rows)
    requires PollSees(p, rows, start.revision) && n <= |p.trades|
    ensures Progress(rows, start,
                     now.(table := Replay(now.table, p.trades[..n], now.revision, now.watermark, p.until)), p.until)
  {
    var part := p.trades[..n];
    assert forall t :: t in part ==> t in p.trades;
    assert Rows(part, start.revision) <= Rows(p.trades, start.revision);
    ReplayContents(now.table, part, now.revision, now.watermark, p.until);
    var after := Replay(now.table, part, now.revision, now.watermark, p.until);
    forall r | r in after
      ensures r in start.table || (r in rows && Due(r.exit, start.watermark, p.until) && !HasKey(start.table, r))
    {
      HasKeyWidens(start.table, now.table, r);
    }
  }

  lemma SuccessCompletes(rows: set<Row>, start: Book, now: Book, was: int, p: Poll)
    requires Progress(rows, start, now, was) && was <= p.until && KeysIdentify(rows)
    requires PollSees(p, rows, start.revision) && p.Succeeds()
    ensures Complete(rows, start, Apply(now, p), p.until) && Progress(rows, start, Apply(now, p), p.until)
  {
    var after := Apply(now, p);
    assert p.trades[..|p.trades|] == p.trades;
    ReplayKeepsProgress(rows, start, now, was, p, |p.trades|);
    ReplayContents(now.table, p.trades, now.revision, now.watermark, p.until);
    NewestContents(p.trades, now.revision, now.watermark, p.until);
    forall r | r in rows && Due(r.exit, start.watermark, p.until) && !HasKey(start.table, r)
      ensures r in after.table
    {
      if After(now.watermark, r.exit) && HasKey(now.table, r) {
        TakenKeyIsStored(rows, start, now, was, r);
      }
    }
  }

  lemma {:induction false} RunKeepsProgress(rows: set<Row>, b: Book, polls: seq<Poll>)
    requires polls != [] && Consistent(polls, rows, b.revision) && KeysIdentify(rows)
    ensures Progress(rows, b, Run(b, polls), polls[|polls| - 1].until)
    ensures polls[|polls| - 1].Succeeds() ==> Complete(rows, b, Run(b, polls), polls[|polls| - 1].until)
  {
    var init, p := polls[..|polls| - 1], polls[|polls| - 1];
    assert PollSees(p, rows, b.revision);
    var was := if init == [] then p.until else init[|init| - 1].until;
    if init == [] {
      assert Run(b, init) == b;
    } else {
      assert forall i :: 0 <= i < |init| ==> init[i] == polls[i];
      RunKeepsProgress(rows, b, init);
    }
    if p.Succeeds() {
      SuccessCompletes(rows, b, Run(b, init), was, p);
    } else {
      ReplayKeepsProgress(rows, b, Run(b, init), was, p, p.failsAt.value);
    }
  }

  /**
   * Incremental equals one-shot: any polls that end in a successful one, with failed and
   * partial polls anywhere before it, store exactly the rows that one catch-up at the last
   * time would store, and reach the same watermark. No key is stored twice and the
   * watermark does not go back.
   */
  lemma IncrementalEqualsOneShot(b: Book, polls: seq<Poll>)
    requires polls != [] && polls[|polls| - 1].Succeeds() && KeysDistinct(b.table)
    requires Consistent(polls, Rows(polls[|polls| - 1].trades, b.revision), b.revision)
    ensures var many, once := Run(b, polls), Apply(b, polls[|polls| - 1]);
            && (forall r :: r in many.table <==> r in once.table)
            && KeysDistinct(many.table)
            && many.watermark == once.watermark
            && (b.watermark.Some? ==> many.watermark.Some? && b.watermark.value <= many.watermark.value)
  {
    var p := polls[|polls| - 1];
    var rows := Rows(p.trades, b.revision);
    RunKeepsProgress(rows, b, polls);
    assert [p][..0] == [];
    assert Run(b, [p]) == Apply(Run(b, []), p);
    RunKeepsProgress(rows, b, [p]);
    NewestUnique(rows, b.watermark, p.until, Run(b, polls).watermark, Apply(b, p).watermark);
  }

  /** This row is this closed trade: its times, side, price and result, under the profile's revision. */
  predicate Tells(r: Row, t: RawTrade, revision: int) {
    && t.Trade? && !t.isOpen && t.entry == Some(r.entry) && t.exit == Some(r.exit)
    && t.side == r.side && t.price == r.price && t.pnl == r.pnl && r.revision == revision
  }

  /** The same trade as the unique key has it: everything but the result. */
  predicate SameTrade(r: Row, x: Row) {
    r.revision == x.revision && r.entry == x.entry && r.exit == x.exit && r.side == x.side && r.price == x.price
  }

  lemma RowsTellTrades(ts: seq<RawTrade>, revision: int, r: Row)
    ensures r in Rows(ts, revision) <==> exists t :: t in ts && Tells(r, t, revision)
  {
    if r in Rows(ts, revision) {
      var t :| t in ts && IsClosed(t) && RowOf(t, revision) == r;
      assert Tells(r, t, revision);
    }
    if t :| t in ts && Tells(r, t, revision) {
      assert RowOf(t, revision) == r;
    }
  }

  /**
   * What is stored, told from the trades: after any polls that end in a success, the table
   * has what it had and exactly the closed trades that ended after the watermark and by now
   * and were not stored before, with their own result.
   */
  lemma StoredIffClosedInTime(b: Book, polls: seq<Poll>, r: Row)
    requires polls != [] && polls[|polls| - 1].Succeeds()
    requires Consistent(polls, Rows(polls[|polls| - 1].trades, b.revision), b.revision)
    ensures var p := polls[|polls| - 1];
            r in Run(b, polls).table
            <==> r in b.table || ((exists t :: t in p.trades && Tells(r, t, b.revision))
                                  && (b.watermark.None? || b.watermark.value < r.exit) && r.exit <= p.until
                                  && (forall x :: x in b.table ==> !SameTrade(r, x)))
  {
    var p := polls[|polls| - 1];
    var rows := Rows(p.trades, b.revision);
    RunKeepsProgress(rows, b, polls);
    RowsTellTrades(p.trades, b.revision, r);
    assert HasKey(b.table, r) <==> exists x :: x in b.table && SameTrade(r, x) by {
      if x :| x in b.table && SameTrade(r, x) {
        var i :| 0 <= i < |b.table| && b.table[i] == x;
        assert KeyOf(b.table[i]) == KeyOf(r);
      }
    }
  }

  /** A closed trade that a catch-up from this watermark to this time takes. */
  predicate Takes(t: RawTrade, watermark: Option<int>, until: int) {
    && t.Trade? && !t.isOpen && t.entry.Some? && t.exit.Some?
    && (watermark.None? || watermark.value < t.exit.value) && t.exit.value <= until
  }

  /** The watermark moves to the newest end among the trades taken, and only if nothing broke off. */
  lemma {:induction false} WatermarkIsTheNewestEnd(ts: seq<RawTrade>, watermark: Option<int>, until: int)
    ensures var w := Newest(ts, watermark, until);
            && (forall t :: t in ts && Takes(t, watermark, until) ==> w.Some? && t.exit.value <= w.value)
            && (w == watermark || exists t :: t in ts && Takes(t, watermark, until) && w == t.exit)
  {
    if ts != [] {
      var init, t := ts[..|ts| - 1], ts[|ts| - 1];
      WatermarkIsTheNewestEnd(init, watermark, until);
      assert ts == init + [t];
    }
  }

  /** Only a poll that got through all its trades moves the watermark; a switch opens a revision and sets it anew. */
  lemma WhenTheWatermarkMoves(b: Book, p: Poll, oldTrades: seq<RawTrade>, now: int, running: bool)
    ensures Apply(b, p).watermark
         == if p.failsAt.Some? && p.failsAt.value < |p.trades| then b.watermark
            else Newest(p.trades, b.watermark, p.until)
    ensures Apply(b, p).revision == b.revision
    ensures var after := Switched(b, oldTrades, now, running);
            && after.revision == b.revision + 1 && after.watermark == (if running then Some(now) else None)
            && after.table == Apply(b, Poll(oldTrades, now, None)).table
  {}

  /**
   * Switching while stopped clears the watermark so that the new strategy's backlog can
   * be replayed, but starting the profile sets it again: after switch, start at time t
   * and any polls, a trade of the new strategy is stored if and only if it closed after t.
   */
  lemma BacklogIsNotReplayed(b: Book, oldTrades: seq<RawTrade>, switchedAt: int, startedAt: int,
                             ready: Book, polls: seq<Poll>)
    requires forall r :: r in b.table ==> r.revision <= b.revision
    requires KeysIdentify(Rows(oldTrades, b.revision))
    requires ready == Started(Switched(b, oldTrades, switchedAt, false), startedAt)
    requires polls != [] && polls[|polls| - 1].Succeeds()
    requires Consistent(polls, Rows(polls[|polls| - 1].trades, ready.revision), ready.revision)
    ensures forall r :: r in Rows(polls[|polls| - 1].trades, ready.revision) && r.exit <= polls[|polls| - 1].until
              ==> (r in Run(ready, polls).table <==> r.exit > startedAt)
  {
    OlderRevisions(b, oldTrades, switchedAt);
    FirstPollsOfARevision(ready, polls, startedAt);
  }

  /** In a revision with nothing stored yet, polls store what closed after the watermark. */
  lemma FirstPollsOfARevision(b: Book, polls: seq<Poll>, startedAt: int)
    requires b.watermark == Some(startedAt) && forall r :: r in b.table ==> r.revision <= b.revision - 1
    requires polls != [] && polls[|polls| - 1].Succeeds()
    requires Consistent(polls, Rows(polls[|polls| - 1].trades, b.revision), b.revision)
    ensures forall r :: r in Rows(polls[|polls| - 1].trades, b.revision) && r.exit <= polls[|polls| - 1].until
              ==> (r in Run(b, polls).table <==> r.exit > startedAt)
  {
    var rows := Rows(polls[|polls| - 1].trades, b.revision);
    RunKeepsProgress(rows, b, polls);
    forall r | r in rows ensures !HasKey(b.table, r) && r !in b.table {
      NewRevisionIsUnseen(b.table, b.revision - 1, r);
    }
  }

  lemma OlderRevisions(b: Book, oldTrades: seq<RawTrade>, switchedAt: int)
    requires KeysIdentify(Rows(oldTrades, b.revision))
    requires forall r :: r in b.table ==> r.revision <= b.revision
    ensures forall r :: r in Switched(b, oldTrades, switchedAt, false).table ==> r.revision <= b.revision
  {
    ReplayContents(b.table, oldTrades, b.revision, b.watermark, switchedAt);
  }

  lemma NewRevisionIsUnseen(table: seq<Row>, revision: int, r: Row)
    requires r.revision > revision && forall x :: x in table ==> x.revision <= revision
    ensures !HasKey(table, r) && r !in table
  {}
}
