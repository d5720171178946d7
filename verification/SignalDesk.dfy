/**
 * The trading machine of one strategy: one signal report after another.
 *
 * The desk holds the strategy's config, the newest report it has dealt with, the streak of
 * opposite reports and the open position. An attempt at a queued report runs guards, syncs
 * the position with the exchange and then enters, holds or closes. An attempt that raises
 * keeps what it had already changed and may be repeated. Everything the database, the
 * exchange and the gates answer during an attempt is an input.
 */
module SignalDesk {
  import opened Common
  import Lifecycle

  datatype Trend = Long | Short | Neutral

  datatype Position = Position(side: Trend, announced: bool)

  /** What an attempt did with a report, in order. */
  datatype Entry =
    | Opened(history: int, side: Trend)        // position opened and announced
    | Settled(history: int, trend: Trend)      // streak set back to zero
    | Counted(history: int, trend: Trend, side: Trend, confidence: real)  // one more opposite report
    | Confirmed(history: int, announced: bool) // closed as confirmed by opposite reports
    | Ignored(history: int, trend: Trend)      // no position, nothing done, streak kept
    | Emergency(history: int)                  // entry without protection, closed at once

  /** An entry order as it was sent, with the state of the config at that moment. */
  datatype Order = Order(history: int, side: Trend, enabled: bool, running: bool, latched: bool, live: bool)

  datatype Desk = Desk(config: Lifecycle.Config, processed: int, streak: nat, position: Option<Position>,
                       log: seq<Entry>, orders: seq<Order>)

  datatype Report = Report(history: int, profile: int)

  datatype Exchange = Unreachable(retryable: bool) | Flat | Live(side: Trend, priced: bool)

  datatype Gate = Passes | Blocks | GateFails(retryable: bool)

  /** How an entry goes: it may also raise after the position row was added, before it is announced. */
  datatype EntryResult =
    LeverageFails(retryable: bool) | OrderFails(retryable: bool) | RaisesWithRow(retryable: bool) | Unprotected | Filled

  datatype CloseResult = CloseFails(retryable: bool) | StillOpen | Closes(pause: bool)

  /** The answers an attempt gets from outside, and the parsed report. */
  datatype Env = Env(
    configLocked: bool, configFound: bool, historyFound: bool, payloadValid: bool, profileFound: bool,
    signalSymbolValid: bool, profileSymbolValid: bool, symbolsMatch: bool, trend: Trend, confidence: real,
    exchange: Exchange, stale: bool, overlayBlocks: bool, risk: Gate, sizePositive: bool, entry: EntryResult,
    ladderEngaged: bool, close: CloseResult)

  datatype Outcome = Completed | Skipped | Dead | Raised(retryable: bool)

  datatype Result = Result(desk: Desk, outcome: Outcome)

  // ----- The attempt as a function ------------------------------------------------------

  function Advance(d: Desk, history: int): Desk {
    d.(processed := if d.processed >= history then d.processed else history)
  }

  function Note(d: Desk, e: Entry): Desk {
    d.(log := d.log + [e])
  }

  /** The streak starts over. */
  function Settle(d: Desk, history: int, trend: Trend): Desk {
    Note(d.(streak := 0), Settled(history, trend))
  }

  function Send(d: Desk, history: int, side: Trend): Desk {
    d.(orders := d.orders + [Order(history, side, d.config.content.enabled, d.config.running, d.config.latched,
                                   d.config.stage == Lifecycle.Live)])
  }

  predicate Fraction(x: real) {
    0.0 < x < 1.0
  }

  /** Trading without an open position: either a reason not to enter, or an entry. */
  function Enter(d: Desk, h: int, e: Env, demo: bool): Result {
    var settings := d.config.content.settings;
    if d.config.stage != Lifecycle.Live && !demo then Result(Note(d, Ignored(h, e.trend)), Completed)
    else if e.trend == Neutral || Fraction(settings.minConfidence) || e.confidence < settings.minConfidence then
      Result(Settle(d, h, e.trend), Completed)
    else if e.stale then Result(Note(d, Ignored(h, e.trend)), Completed)
    else if e.overlayBlocks then Result(Settle(d, h, e.trend), Completed)
    else match e.risk
      case GateFails(r) => Result(d, Raised(r))
      case Blocks => Result(Settle(d, h, e.trend), Completed)
      case Passes =>
        if !e.sizePositive then Result(Note(d, Ignored(h, e.trend)), Completed)
        else match e.entry
          case LeverageFails(r) => Result(d, Raised(r))
          case OrderFails(r) => Result(Send(d, h, e.trend), Raised(r))
          case RaisesWithRow(r) => Result(Send(d, h, e.trend).(position := Some(Position(e.trend, false))), Raised(r))
          case Unprotected => Result(Note(Send(d, h, e.trend), Emergency(h)), Completed)
          case Filled =>
            var announced := Send(d, h, e.trend).(streak := 0, position := Some(Position(e.trend, true)));
            Result(Note(announced, Opened(h, e.trend)), Completed)
  }

  /** Sending the close order and confirming it; only a confirmed close changes the row. */
  function CloseWith(d: Desk, e: Env, entry: Entry): Result {
    match e.close
    case CloseFails(r) => Result(d, Raised(r))
    case StillOpen => Result(d, Raised(true))
    case Closes(pause) =>
      var config := d.config.(running := d.config.running && !pause);
      Result(Note(d.(streak := 0, position := None, config := config), entry), Completed)
  }

  /** Trading with an open position: hold, count the opposite report, or close. */
  function Hold(d: Desk, h: int, e: Env): Result
    requires d.position.Some?
  {
    var p := d.position.value;
    if e.exchange.Flat? then Result(Settle(d, h, e.trend).(position := None), Completed)
    else if e.trend == Neutral || e.trend == p.side || e.ladderEngaged then Result(Settle(d, h, e.trend), Completed)
    else if e.confidence >= d.config.content.settings.fastCloseConfidence then CloseWith(d, e, Settled(h, e.trend))
    else
      var counted := Note(d.(streak := d.streak + 1), Counted(h, e.trend, p.side, e.confidence));
      if counted.streak < d.config.content.settings.confirmations then Result(counted, Completed)
      else CloseWith(counted, e, Confirmed(h, p.announced))
  }

  /** The exchange's side wins; a live position without a row is adopted if it has a price. */
  function Sync(d: Desk, x: Exchange): Desk {
    if !x.Live? then d
    else if d.position.Some? then d.(position := Some(d.position.value.(side := x.side)))
    else if x.priced then d.(position := Some(Position(x.side, false)))
    else d
  }

  /** The desk after a completed decision has moved on to its report. */
  function Finish(r: Result, h: int): Desk {
    if r.outcome == Completed then Advance(r.desk, h) else r.desk
  }

  /** The decision about a report that passed every guard. */
  function Trade(d: Desk, h: int, e: Env, demo: bool): Result {
    if e.exchange.Unreachable? then Result(d, Raised(e.exchange.retryable))
    else
      var synced := Sync(d, e.exchange);
      var r := if synced.position.None? then Enter(synced, h, e, demo) else Hold(synced, h, e);
      r.(desk := Finish(r, h))
  }

  /** The report gets past the guards and reaches the trading code. */
  predicate ReachesTrading(d: Desk, r: Report, e: Env) {
    && !e.configLocked && e.configFound && d.config.content.enabled && d.config.running
    && d.config.content.profile == r.profile && e.historyFound && r.history > d.processed
    && e.payloadValid && e.profileFound && e.signalSymbolValid && e.profileSymbolValid && e.symbolsMatch
  }

  function Attempt(d: Desk, r: Report, e: Env, demo: bool): Result {
    if e.configLocked then Result(d, Raised(true))
    else if !e.configFound then Result(d, Dead)
    else if !d.config.content.enabled || !d.config.running then Result(d, Skipped)
    else if d.config.content.profile != r.profile then Result(d, Skipped)
    else if !e.historyFound then Result(d, Dead)
    else if r.history <= d.processed then Result(d, Skipped)
    else if !e.payloadValid then Result(Advance(d, r.history), Skipped)
    else if !e.profileFound then Result(d, Skipped)
    else if !e.signalSymbolValid then Result(Advance(d, r.history), Skipped)
    else if !e.profileSymbolValid then Result(d, Skipped)
    else if !e.symbolsMatch then Result(Advance(d, r.history), Skipped)
    else Trade(d, r.history, e, demo)
  }

  // ----- The same as stored rows --------------------------------------------------------

  class Machine {
    const demo: bool
    var config: Lifecycle.Config
    var processed: int
    var streak: nat
    var position: Option<Position>
    var log: seq<Entry>
    var orders: seq<Order>

    ghost function View(): Desk
      reads this
    {
      Desk(config, processed, streak, position, log, orders)
    }

    constructor (config: Lifecycle.Config, demo: bool)
      ensures this.demo == demo && View() == Fresh(config)
    {
      this.demo, this.config := demo, config;
      processed, streak, position, log, orders := 0, 0, None, [], [];
    }

    method ProcessQueueItem(r: Report, e: Env) returns (outcome: Outcome)
      modifies this
      ensures Result(View(), outcome) == Attempt(old(View()), r, e, demo)
    {
      if e.configLocked { return Raised(true); }
      if !e.configFound { return Dead; }
      if !config.content.enabled || !config.running { return Skipped; }
      if config.content.profile != r.profile { return Skipped; }
      if !e.historyFound { return Dead; }
      if r.history <= processed { return Skipped; }
      if !e.payloadValid { processed := r.history; return Skipped; }
      if !e.profileFound { return Skipped; }
      if !e.signalSymbolValid { processed := r.history; return Skipped; }
      if !e.profileSymbolValid { return Skipped; }
      if !e.symbolsMatch { processed := r.history; return Skipped; }
      outcome := ProcessSignal(r.history, e);
    }

    method ProcessSignal(h: int, e: Env) returns (outcome: Outcome)
      modifies this
      ensures Result(View(), outcome) == Trade(old(View()), h, e, demo)
    {
      if e.exchange.Unreachable? { return Raised(e.exchange.retryable); }
      if e.exchange.Live? {
        if position.Some? {
          position := Some(position.value.(side := e.exchange.side));
        } else if e.exchange.priced {
          position := Some(Position(e.exchange.side, false));
        }
      }
      if position.None? {
        outcome := WithoutPosition(h, e);
      } else {
        outcome := WithPosition(h, e);
      }
      if outcome == Completed {
        processed := if processed >= h then processed else h;
      }
    }

    method WithoutPosition(h: int, e: Env) returns (outcome: Outcome)
      modifies this
      ensures Result(View(), outcome) == Enter(old(View()), h, e, demo)
    {
      outcome := Completed;
      if config.stage != Lifecycle.Live && !demo { log := log + [Ignored(h, e.trend)]; return; }
      if e.trend == Neutral { Restart(h, e.trend); return; }
      if Fraction(config.content.settings.minConfidence) { Restart(h, e.trend); return; }
      if e.confidence < config.content.settings.minConfidence { Restart(h, e.trend); return; }
      if e.stale { log := log + [Ignored(h, e.trend)]; return; }
      if e.overlayBlocks { Restart(h, e.trend); return; }
      if e.risk.GateFails? { return Raised(e.risk.retryable); }
      if e.risk.Blocks? { Restart(h, e.trend); return; }
      if !e.sizePositive { log := log + [Ignored(h, e.trend)]; return; }
      if e.entry.LeverageFails? { return Raised(e.entry.retryable); }
      orders := orders + [Order(h, e.trend, config.content.enabled, config.running, config.latched,
                                config.stage == Lifecycle.Live)];
      if e.entry.OrderFails? { return Raised(e.entry.retryable); }
      if e.entry.RaisesWithRow? {
        position := Some(Position(e.trend, false));
        return Raised(e.entry.retryable);
      }
      if e.entry.Unprotected? { log := log + [Emergency(h)]; return; }
      position, streak := Some(Position(e.trend, true)), 0;
      log := log + [Opened(h, e.trend)];
    }

    method WithPosition(h: int, e: Env) returns (outcome: Outcome)
      requires position.Some?
      modifies this
      ensures Result(View(), outcome) == Hold(old(View()), h, e)
    {
      outcome := Completed;
      if e.exchange.Flat? { position := None; Restart(h, e.trend); return; }
      if e.trend == Neutral || e.trend == position.value.side { Restart(h, e.trend); return; }
      if e.ladderEngaged { Restart(h, e.trend); return; }
      var entry := Settled(h, e.trend);
      if e.confidence < config.content.settings.fastCloseConfidence {
        streak := streak + 1;
        log := log + [Counted(h, e.trend, position.value.side, e.confidence)];
        if streak < config.content.settings.confirmations { return; }
        entry := Confirmed(h, position.value.announced);
      }
      if e.close.CloseFails? { return Raised(e.close.retryable); }
      if e.close.StillOpen? { return Raised(true); }
      position, streak, log := None, 0, log + [entry];
      if e.close.pause { config := config.(running := false); }
    }

    method Restart(h: int, trend: Trend)
      modifies `streak, `log
      ensures streak == 0 && log == old(log) + [Settled(h, trend)]
    {
      streak, log := 0, log + [Settled(h, trend)];
    }
  }

  // ----- Runs ---------------------------------------------------------------------------

  /** Attempts, commands on the config, and what else happens to the position row. */
  datatype Action =
    | Try(report: Report, env: Env)
    | Govern(cmd: Lifecycle.Command)
    | CloseElsewhere
    | SyncElsewhere(exchange: Exchange)

  function Next(d: Desk, a: Action, demo: bool, hash: Lifecycle.Hash): Desk {
    match a
    case Try(r, e) => Attempt(d, r, e, demo).desk
    case Govern(cmd) => d.(config := Lifecycle.Step(d.config, cmd, demo, hash))
    case CloseElsewhere => d.(position := None)
    case SyncElsewhere(x) => if x.Flat? then d.(position := None) else Sync(d, x)
  }

  function After(d: Desk, run: seq<Action>, demo: bool, hash: Lifecycle.Hash): Desk {
    if run == [] then d else Next(After(d, run[..|run| - 1], demo, hash), run[|run| - 1], demo, hash)
  }

  // ----- Each report is decided once, in order ------------------------------------------

  /** This action completes a trading decision. */
  predicate Decides(d: Desk, a: Action, demo: bool) {
    a.Try? && ReachesTrading(d, a.report, a.env) && Attempt(d, a.report, a.env, demo).outcome == Completed
  }

  /** The reports whose trading decision the run completed, in order. */
  function Decided(d: Desk, run: seq<Action>, demo: bool, hash: Lifecycle.Hash): seq<int> {
    if run == [] then []
    else
      var init, a := run[..|run| - 1], run[|run| - 1];
      Decided(d, init, demo, hash) + if Decides(After(d, init, demo, hash), a, demo) then [a.report.history] else []
  }

  /** Reports that fail a guard are told apart from decisions by their outcome. */
  lemma CompletedMeansDecided(d: Desk, r: Report, e: Env, demo: bool)
    ensures Attempt(d, r, e, demo).outcome == Completed ==> ReachesTrading(d, r, e)
    ensures Decides(d, Try(r, e), demo) ==> Attempt(d, r, e, demo).desk.processed == r.history
  {}

  /** A report that fails a guard can only be recorded as dealt with. */
  lemma GuardsDoNotTrade(d: Desk, r: Report, e: Env, demo: bool)
    requires !ReachesTrading(d, r, e)
    ensures var after := Attempt(d, r, e, demo);
            after.outcome != Completed
            && (after.desk == d || (r.history > d.processed && after.desk == d.(processed := r.history)))
  {}

  lemma ProcessedNeverGoesBack(d: Desk, a: Action, demo: bool, hash: Lifecycle.Hash)
    ensures Next(d, a, demo, hash).processed >= d.processed
  {}

  predicate Increasing(s: seq<int>) {
    forall i, j :: 0 <= i < j < |s| ==> s[i] < s[j]
  }

  predicate Between(s: seq<int>, low: int, high: int) {
    forall x :: x in s ==> low < x <= high
  }

  /**
   * Whatever the queue's order and however often attempts are repeated, trading decisions
   * are completed for strictly increasing reports.
   */
  lemma {:induction false} DecisionsIncrease(d: Desk, run: seq<Action>, demo: bool, hash: Lifecycle.Hash)
    ensures Increasing(Decided(d, run, demo, hash))
    ensures Between(Decided(d, run, demo, hash), d.processed, After(d, run, demo, hash).processed)
    ensures After(d, run, demo, hash).processed >= d.processed
  {
    if run != [] {
      var init, a := run[..|run| - 1], run[|run| - 1];
      DecisionsIncrease(d, init, demo, hash);
      var before := After(d, init, demo, hash);
      ProcessedNeverGoesBack(before, a, demo, hash);
      if Decides(before, a, demo) {
        CompletedMeansDecided(before, a.report, a.env, demo);
        ExtendIncreasing(Decided(d, init, demo, hash), d.processed, before.processed, a.report.history);
      }
    }
  }

  lemma ExtendIncreasing(s: seq<int>, low: int, high: int, x: int)
    requires Increasing(s) && Between(s, low, high) && low <= high < x
    ensures Increasing(s + [x]) && Between(s + [x], low, x)
  {
    assert forall i :: 0 <= i < |s| ==> s[i] in s;
  }

  /** No attempt, first or repeated, reaches the trading code with a report at or below a decided one. */
  lemma NoSecondDecision(d: Desk, run: seq<Action>, r: Report, e: Env, demo: bool, hash: Lifecycle.Hash)
    requires ReachesTrading(After(d, run, demo, hash), r, e)
    ensures forall h :: h in Decided(d, run, demo, hash) ==> h < r.history
  {
    DecisionsIncrease(d, run, demo, hash);
  }

  // ----- Entries only from strategies that may trade ------------------------------------

  predicate SafeOrder(o: Order, demo: bool) {
    o.enabled && o.running && !o.latched && (o.live || demo)
  }

  ghost predicate OrdersInv(d: Desk, demo: bool) {
    Lifecycle.Safe(d.config, demo) && forall o :: o in d.orders ==> SafeOrder(o, demo)
  }

  lemma AttemptKeepsOrders(d: Desk, r: Report, e: Env, demo: bool)
    requires OrdersInv(d, demo)
    ensures OrdersInv(Attempt(d, r, e, demo).desk, demo)
  {
    if ReachesTrading(d, r, e) && !e.exchange.Unreachable? {
      var synced := Sync(d, e.exchange);
      assert OrdersInv(synced, demo);
      assert synced.position.Some? ==> OrdersInv(Hold(synced, r.history, e).desk, demo);
      assert synced.position.None? ==> OrdersInv(Enter(synced, r.history, e, demo).desk, demo);
    }
  }

  /** The entry path does not look at the latch: a strategy that runs although latched sends orders. */
  lemma LatchedStrategyCanTrade(d: Desk, r: Report, e: Env, demo: bool)
    requires d.config.latched && d.position.None? && ReachesTrading(d, r, e) && e.exchange.Flat?
    requires (d.config.stage == Lifecycle.Live || demo) && e.trend != Neutral && !e.stale && !e.overlayBlocks
    requires var least := d.config.content.settings.minConfidence; !Fraction(least) && e.confidence >= least
    requires e.risk.Passes? && e.sizePositive && e.entry.Filled?
    ensures var orders := Attempt(d, r, e, demo).desk.orders; orders != [] && orders[|orders| - 1].latched
  {}

  /**
   * Every entry order of every run was sent by a strategy that was enabled, running, not
   * latched risk-off, and live or on a demo account. The entry path itself never reads the
   * latch.
   */
  lemma {:induction false} EntriesAreAllowed(d: Desk, run: seq<Action>, demo: bool, hash: Lifecycle.Hash)
    requires OrdersInv(d, demo)
    ensures OrdersInv(After(d, run, demo, hash), demo)
  {
    if run != [] {
      var before, a := After(d, run[..|run| - 1], demo, hash), run[|run| - 1];
      EntriesAreAllowed(d, run[..|run| - 1], demo, hash);
      match a
      case Try(r, e) => AttemptKeepsOrders(before, r, e, demo);
      case Govern(cmd) => Lifecycle.StepKeepsSafe(before.config, cmd, demo, hash);
      case _ =>
    }
  }

  // ----- The log leaves no report out ---------------------------------------------------

  /** Entries are only added, and every completed decision leaves entries of its own report. */
  lemma EveryDecisionIsLogged(d: Desk, r: Report, e: Env, demo: bool)
    ensures Logs(d.log, Attempt(d, r, e, demo), r.history)
  {
    if ReachesTrading(d, r, e) && !e.exchange.Unreachable? {
      var synced := Sync(d, e.exchange);
      if synced.position.Some? {
        HoldIsLogged(synced, r.history, e);
      } else {
        EnterIsLogged(synced, r.history, e, demo);
      }
    }
  }

  /** Whether a result adds to the log, and only entries of this report. */
  predicate Logs(before: seq<Entry>, r: Result, h: int) {
    && before <= r.desk.log && (r.outcome == Completed ==> |before| < |r.desk.log|)
    && (forall k :: |before| <= k < |r.desk.log| ==> r.desk.log[k].history == h)
  }

  lemma HoldIsLogged(d: Desk, h: int, e: Env)
    requires d.position.Some?
    ensures Logs(d.log, Hold(d, h, e), h)
  {}

  lemma EnterIsLogged(d: Desk, h: int, e: Env, demo: bool)
    ensures Logs(d.log, Enter(d, h, e, demo), h)
  {}

  predicate Announced(d: Desk) {
    d.position.Some? && d.position.value.announced
  }

  /** No position is opened and announced without a recorded order of that report and side. */
  lemma OpeningsSendOrders(d: Desk, r: Report, e: Env, demo: bool)
    requires !Announced(d)
    ensures var after := Attempt(d, r, e, demo).desk;
            Announced(after) ==> (|after.orders| == |d.orders| + 1 && d.orders <= after.orders
                                  && after.orders[|d.orders|].history == r.history
                                  && after.orders[|d.orders|].side == after.position.value.side == e.trend)
  {
    if ReachesTrading(d, r, e) && !e.exchange.Unreachable? {
      var synced := Sync(d, e.exchange);
      assert !Announced(synced) && synced.orders == d.orders;
    }
  }

  /** With an open position, a neutral or same-side report always starts the streak over and is logged so. */
  lemma NeutralAndSameSideSettle(d: Desk, r: Report, e: Env, demo: bool)
    requires ReachesTrading(d, r, e) && !e.exchange.Unreachable? && Sync(d, e.exchange).position.Some?
    requires e.trend == Neutral || e.trend == Sync(d, e.exchange).position.value.side
    ensures var after := Attempt(d, r, e, demo).desk;
            after.streak == 0 && after.log == d.log + [Settled(r.history, e.trend)] && after.orders == d.orders
  {}

  // ----- What an attempt comes to, told from outside ------------------------------------

  /** Enabled, running, and asked about a report of its own profile. */
  predicate Listening(d: Desk, r: Report) {
    d.config.content.enabled && d.config.running && d.config.content.profile == r.profile
  }

  /** Which guard gives which outcome, and which of them write the report off as dealt with. */
  lemma GuardsDecide(d: Desk, r: Report, e: Env, demo: bool)
    ensures var a := Attempt(d, r, e, demo);
            var asked := !e.configLocked && e.configFound && Listening(d, r) && e.historyFound;
            var newer := asked && r.history > d.processed;
            && (e.configLocked ==> a == Result(d, Raised(true)))
            && (a.outcome == Dead <==> !e.configLocked && (!e.configFound || (Listening(d, r) && !e.historyFound)))
            && (a.outcome == Skipped
                <==> (!e.configLocked && e.configFound
                      && (!Listening(d, r)
                          || (asked && (!newer || !e.payloadValid || !e.profileFound || !e.signalSymbolValid
                                        || !e.profileSymbolValid || !e.symbolsMatch)))))
            && (a.outcome == Skipped
                ==> a.desk == if newer && (!e.payloadValid
                                           || (e.profileFound
                                               && (!e.signalSymbolValid || (e.profileSymbolValid && !e.symbolsMatch))))
                              then d.(processed := r.history) else d)
            && (ReachesTrading(d, r, e) && e.exchange.Unreachable? ==> a == Result(d, Raised(e.exchange.retryable)))
  {}

  /** Once the exchange has been heard there is a position: a stored one, or a live one with a price. */
  predicate InPosition(d: Desk, x: Exchange) {
    d.position.Some? || (x.Live? && x.priced)
  }

  predicate WasAnnounced(d: Desk) {
    d.position.Some? && d.position.value.announced
  }

  /** A report against the live position, while the take-profit ladder does not hold it. */
  predicate Against(e: Env) {
    e.exchange.Live? && e.trend != Neutral && e.trend != e.exchange.side && !e.ladderEngaged
  }

  /** The report is confident enough to close at once, or completes the streak. */
  predicate ClosesNow(d: Desk, e: Env) {
    || e.confidence >= d.config.content.settings.fastCloseConfidence
    || d.streak + 1 >= d.config.content.settings.confirmations
  }

  /**
   * Exactly when a report ends a position: the exchange has none, or the report is against
   * it, is confident enough or completes the streak, and the close goes through. Otherwise
   * the position stays, on the exchange's side. No order is sent in either case.
   */
  lemma PositionEndsIff(d: Desk, r: Report, e: Env, demo: bool)
    requires ReachesTrading(d, r, e) && !e.exchange.Unreachable? && InPosition(d, e.exchange)
    ensures var after := Attempt(d, r, e, demo).desk;
            && (after.position.None? <==> e.exchange.Flat? || (Against(e) && ClosesNow(d, e) && e.close.Closes?))
            && (after.position.Some? ==> after.position.value == Position(e.exchange.side, WasAnnounced(d)))
            && after.orders == d.orders
  {}

  /**
   * A report against the position: below both thresholds it only counts; at one of them the
   * position is closed, or the attempt raises and keeps it. A raising attempt keeps what it
   * counted and does not write the report off.
   */
  lemma ReportAgainstPosition(d: Desk, r: Report, e: Env, demo: bool)
    requires ReachesTrading(d, r, e) && InPosition(d, e.exchange) && Against(e)
    ensures var a, fast := Attempt(d, r, e, demo), d.config.content.settings.fastCloseConfidence;
            var counted := if e.confidence >= fast then []
                           else [Counted(r.history, e.trend, e.exchange.side, e.confidence)];
            if !ClosesNow(d, e) then
              && a.outcome == Completed && a.desk.streak == d.streak + 1 && a.desk.processed == r.history
              && a.desk.log == d.log + counted && a.desk.config == d.config
            else if e.close.Closes? then
              && a.outcome == Completed && a.desk.streak == 0 && a.desk.processed == r.history
              && a.desk.config == d.config.(running := d.config.running && !e.close.pause)
              && a.desk.log == d.log + counted + [if e.confidence >= fast then Settled(r.history, e.trend)
                                                  else Confirmed(r.history, WasAnnounced(d))]
            else
              && a.outcome == Raised(e.close.StillOpen? || e.close.retryable)
              && a.desk.streak == d.streak + |counted| && a.desk.processed == d.processed
              && a.desk.log == d.log + counted && a.desk.config == d.config
  {}

  /** Every other report about a position completes, starts the streak over and is written off. */
  lemma ReportWithPosition(d: Desk, r: Report, e: Env, demo: bool)
    requires ReachesTrading(d, r, e) && !e.exchange.Unreachable? && InPosition(d, e.exchange) && !Against(e)
    ensures var a := Attempt(d, r, e, demo);
            && a.outcome == Completed && a.desk.streak == 0 && a.desk.processed == r.history
            && a.desk.log == d.log + [Settled(r.history, e.trend)] && a.desk.config == d.config
  {}

  /** The strategy may trade here at all. */
  predicate MayEnter(d: Desk, demo: bool) {
    d.config.stage == Lifecycle.Live || demo
  }

  /** The report itself calls for an entry. */
  predicate CallsForEntry(d: Desk, e: Env) {
    var least := d.config.content.settings.minConfidence;
    e.trend != Neutral && !(0.0 < least < 1.0) && e.confidence >= least
  }

  /** Everything that stands before the entry order lets it pass. */
  predicate GatesPass(d: Desk, e: Env, demo: bool) {
    && MayEnter(d, demo) && CallsForEntry(d, e) && !e.stale && !e.overlayBlocks && e.risk.Passes? && e.sizePositive
  }

  /**
   * Without a position: an entry order is sent if and only if every gate passes and the
   * leverage is set, one order with the report's side and the config as it is; a position
   * follows only an order that filled, and is announced only if nothing raised.
   */
  lemma OrderIffGatesPass(d: Desk, r: Report, e: Env, demo: bool)
    requires ReachesTrading(d, r, e) && !e.exchange.Unreachable? && !InPosition(d, e.exchange)
    ensures var after, passed := Attempt(d, r, e, demo).desk, GatesPass(d, e, demo);
            && (after.orders != d.orders <==> passed && !e.entry.LeverageFails?)
            && (after.orders != d.orders
                ==> after.orders == d.orders + [Order(r.history, e.trend, true, true, d.config.latched,
                                                      d.config.stage == Lifecycle.Live)])
            && (after.position.Some? <==> passed && (e.entry.Filled? || e.entry.RaisesWithRow?))
            && (after.position.Some? ==> after.position.value == Position(e.trend, e.entry.Filled?))
            && after.config == d.config
  {}

  /** What the entry path answers, and what it does to the streak and the processed mark. */
  lemma EntryOutcome(d: Desk, r: Report, e: Env, demo: bool)
    requires ReachesTrading(d, r, e) && !e.exchange.Unreachable? && !InPosition(d, e.exchange)
    ensures var a, passed := Attempt(d, r, e, demo), GatesPass(d, e, demo);
            var wanted := MayEnter(d, demo) && CallsForEntry(d, e);
            var atRisk := wanted && !e.stale && !e.overlayBlocks;
            && (a.outcome == Completed
                <==> !(atRisk && e.risk.GateFails?) && !(passed && !e.entry.Filled? && !e.entry.Unprotected?))
            && (atRisk && e.risk.GateFails? ==> a.outcome == Raised(e.risk.retryable))
            && (passed && !e.entry.Filled? && !e.entry.Unprotected? ==> a.outcome == Raised(e.entry.retryable))
            && a.desk.processed == (if a.outcome == Completed then r.history else d.processed)
            && a.desk.streak == (if (MayEnter(d, demo) && !CallsForEntry(d, e))
                                    || (wanted && !e.stale && (e.overlayBlocks || e.risk.Blocks?))
                                    || (passed && e.entry.Filled?)
                                 then 0 else d.streak)
  {}

  /** A new report of this strategy against a live position, of too little confidence to close at once. */
  predicate Hostile(d: Desk, a: Action, after: int) {
    && a.Try? && a.report.profile == d.config.content.profile && a.report.history > after
    && !a.env.configLocked && a.env.configFound && a.env.historyFound && a.env.payloadValid && a.env.profileFound
    && a.env.signalSymbolValid && a.env.profileSymbolValid && a.env.symbolsMatch
    && Against(a.env) && a.env.confidence < d.config.content.settings.fastCloseConfidence
    && a.env.close == Closes(false)
  }

  /** The last report of a run of attempts, or the one the desk had dealt with before. */
  function LastReport(d: Desk, run: seq<Action>): int {
    if run == [] || !run[|run| - 1].Try? then d.processed else run[|run| - 1].report.history
  }

  /** An unbroken stretch of them, each newer than the one before. */
  predicate HostileStretch(d: Desk, run: seq<Action>) {
    run == [] || (HostileStretch(d, run[..|run| - 1])
                  && Hostile(d, run[|run| - 1], LastReport(d, run[..|run| - 1])))
  }

  /**
   * The other half of the confirmation rule: an unbroken stretch of opposite reports closes
   * the position with the very report that brings the streak to the threshold, and with none
   * before it.
   */
  lemma {:induction false} EnoughReportsClose(d: Desk, run: seq<Action>, demo: bool, hash: Lifecycle.Hash)
    requires d.position.Some? && d.config.content.enabled && d.config.running && HostileStretch(d, run)
    requires d.streak + |run| <= d.config.content.settings.confirmations
    ensures var after := After(d, run, demo, hash);
            && after.config == d.config
            && after.processed == LastReport(d, run)
            && (after.position.None? <==> run != [] && d.streak + |run| == d.config.content.settings.confirmations)
            && (after.position.Some? ==> after.streak == d.streak + |run|)
  {
    if run != [] {
      var init, a := run[..|run| - 1], run[|run| - 1];
      EnoughReportsClose(d, init, demo, hash);
      var before := After(d, init, demo, hash);
      PositionEndsIff(before, a.report, a.env, demo);
      ReportAgainstPosition(before, a.report, a.env, demo);
    }
  }

  // ----- A confirmed close rests on enough distinct reports -----------------------------

  function Extended(counted: set<int>, e: Entry): set<int> {
    if e.Counted? then counted + {e.history}
    else if e.Ignored? || e.Emergency? then counted
    else {}
  }

  /** The reports counted since the streak last started over. */
  function Streaked(log: seq<Entry>): set<int> {
    if log == [] then {} else Extended(Streaked(log[..|log| - 1]), log[|log| - 1])
  }

  /** Since the position was opened and announced, reports only settled or extended the streak. */
  predicate SinceOpened(log: seq<Entry>) {
    if log == [] then false
    else
      var last := log[|log| - 1];
      last.Opened? || ((last.Counted? || last.Settled?) && SinceOpened(log[..|log| - 1]))
  }

  /** An opposite report of a confidence that does not close at once. */
  predicate Opposite(e: Entry, fast: real)
    requires e.Counted?
  {
    e.trend != Neutral && e.trend != e.side && e.confidence < fast
  }

  predicate SoundEntry(log: seq<Entry>, k: nat, required: int, fast: real)
    requires k < |log|
  {
    && (log[k].Counted? ==> Opposite(log[k], fast))
    && (log[k].Confirmed? ==> |Streaked(log[..k])| >= required && (log[k].announced ==> SinceOpened(log[..k])))
  }

  ghost predicate SoundLog(log: seq<Entry>, required: int, fast: real) {
    forall k :: 0 <= k < |log| ==> SoundEntry(log, k, required, fast)
  }

  predicate Thresholds(d: Desk, required: int, fast: real) {
    d.config.content.settings.confirmations == required && d.config.content.settings.fastCloseConfidence == fast
  }

  /**
   * The streak is backed by distinct reports up to the threshold; below the threshold every
   * report behind it has been dealt with, so it cannot be counted again.
   */
  ghost predicate StreakInv(d: Desk, required: int, fast: real) {
    && (d.streak <= |Streaked(d.log)| || required <= |Streaked(d.log)|)
    && (d.streak < required ==> forall h :: h in Streaked(d.log) ==> h <= d.processed)
    && (d.position.Some? && d.position.value.announced ==> SinceOpened(d.log))
    && SoundLog(d.log, required, fast)
  }

  lemma Logged(log: seq<Entry>, e: Entry, required: int, fast: real)
    requires SoundLog(log, required, fast)
    requires e.Counted? ==> Opposite(e, fast)
    requires e.Confirmed? ==> |Streaked(log)| >= required && (e.announced ==> SinceOpened(log))
    ensures SoundLog(log + [e], required, fast)
    ensures Streaked(log + [e]) == Extended(Streaked(log), e)
    ensures SinceOpened(log + [e]) <==> e.Opened? || ((e.Counted? || e.Settled?) && SinceOpened(log))
  {
    var all := log + [e];
    assert all[..|log|] == log;
    forall k | 0 <= k < |all| ensures SoundEntry(all, k, required, fast) {
      if k < |log| {
        assert all[..k] == log[..k];
        assert SoundEntry(log, k, required, fast);
      }
    }
  }

  lemma SettleKeepsStreak(d: Desk, h: int, trend: Trend, required: int, fast: real)
    requires StreakInv(d, required, fast)
    ensures StreakInv(Settle(d, h, trend), required, fast)
  {
    Logged(d.log, Settled(h, trend), required, fast);
  }

  /** An entry that leaves the streak alone. */
  lemma PassedOver(d: Desk, entry: Entry, required: int, fast: real)
    requires StreakInv(d, required, fast) && d.position.None? && (entry.Ignored? || entry.Emergency?)
    ensures StreakInv(Note(d, entry), required, fast)
  {
    Logged(d.log, entry, required, fast);
  }

  lemma OpeningKeepsStreak(d: Desk, h: int, side: Trend, required: int, fast: real)
    requires StreakInv(d, required, fast)
    ensures StreakInv(Note(d.(streak := 0, position := Some(Position(side, true))), Opened(h, side)), required, fast)
  {
    Logged(d.log, Opened(h, side), required, fast);
  }

  /** The ways an entry can leave the desk. */
  lemma EnterCases(d: Desk, h: int, e: Env, demo: bool)
    ensures var after, sent := Enter(d, h, e, demo).desk, Send(d, h, e.trend);
            || after == d || after == sent || after == sent.(position := Some(Position(e.trend, false)))
            || after == Settle(d, h, e.trend) || after == Note(d, Ignored(h, e.trend))
            || after == Note(sent, Emergency(h))
            || after == Note(sent.(streak := 0, position := Some(Position(e.trend, true))), Opened(h, e.trend))
  {}

  lemma EnterKeepsStreak(d: Desk, h: int, e: Env, demo: bool, required: int, fast: real)
    requires StreakInv(d, required, fast) && d.position.None?
    ensures StreakInv(Enter(d, h, e, demo).desk, required, fast)
  {
    var after, sent := Enter(d, h, e, demo).desk, Send(d, h, e.trend);
    EnterCases(d, h, e, demo);
    assert StreakInv(sent, required, fast);
    if after == Settle(d, h, e.trend) {
      SettleKeepsStreak(d, h, e.trend, required, fast);
    } else if after == Note(d, Ignored(h, e.trend)) {
      PassedOver(d, Ignored(h, e.trend), required, fast);
    } else if after == Note(sent, Emergency(h)) {
      PassedOver(sent, Emergency(h), required, fast);
    } else if after == Note(sent.(streak := 0, position := Some(Position(e.trend, true))), Opened(h, e.trend)) {
      OpeningKeepsStreak(sent, h, e.trend, required, fast);
    }
  }

  lemma CloseKeepsStreak(d: Desk, e: Env, entry: Entry, required: int, fast: real)
    requires StreakInv(d, required, fast) && (entry.Settled? || entry.Confirmed?)
    requires entry.Confirmed? ==> |Streaked(d.log)| >= required && (entry.announced ==> SinceOpened(d.log))
    ensures StreakInv(CloseWith(d, e, entry).desk, required, fast)
  {
    Logged(d.log, entry, required, fast);
  }

  /** One more opposite report: below the threshold it is a new one. */
  lemma CountKeepsStreak(d: Desk, h: int, e: Env, required: int, fast: real)
    requires StreakInv(d, required, fast) && d.position.Some? && h > d.processed
    requires e.trend != Neutral && e.trend != d.position.value.side && e.confidence < fast
    ensures var counted := Note(d.(streak := d.streak + 1), Counted(h, e.trend, d.position.value.side, e.confidence));
            && (counted.streak < required ==> StreakInv(Advance(counted, h), required, fast))
            && (counted.streak >= required ==> StreakInv(counted, required, fast))
            && (counted.streak >= required ==> |Streaked(counted.log)| >= required)
  {
    Logged(d.log, Counted(h, e.trend, d.position.value.side, e.confidence), required, fast);
    var before := Streaked(d.log);
    if d.streak < required {
      assert h !in before;
      assert |before + {h}| == |before| + 1;
    } else {
      Grows(before, h);
    }
  }

  lemma Grows(s: set<int>, h: int)
    ensures |s + {h}| >= |s|
  {
    if h in s { assert s + {h} == s; } else { assert |s + {h}| == |s| + 1; }
  }

  lemma AdvanceKeepsStreak(d: Desk, h: int, required: int, fast: real)
    requires StreakInv(d, required, fast)
    ensures StreakInv(Advance(d, h), required, fast)
  {}

  lemma HoldSettles(d: Desk, h: int, e: Env, required: int, fast: real)
    requires StreakInv(d, required, fast) && d.position.Some?
    requires e.exchange.Flat? || e.trend == Neutral || e.trend == d.position.value.side || e.ladderEngaged
    ensures StreakInv(Finish(Hold(d, h, e), h), required, fast)
  {
    SettleKeepsStreak(d, h, e.trend, required, fast);
    AdvanceKeepsStreak(Hold(d, h, e).desk, h, required, fast);
  }

  lemma ConfirmKeepsStreak(d: Desk, e: Env, h: int, announced: bool, required: int, fast: real)
    requires StreakInv(d, required, fast) && |Streaked(d.log)| >= required
    requires d.position.Some? && d.position.value.announced == announced
    ensures StreakInv(Finish(CloseWith(d, e, Confirmed(h, announced)), h), required, fast)
  {
    CloseKeepsStreak(d, e, Confirmed(h, announced), required, fast);
    AdvanceKeepsStreak(CloseWith(d, e, Confirmed(h, announced)).desk, h, required, fast);
  }

  lemma HoldCounts(d: Desk, h: int, e: Env, required: int, fast: real)
    requires StreakInv(d, required, fast) && Thresholds(d, required, fast) && d.position.Some? && h > d.processed
    requires !e.exchange.Flat? && e.trend != Neutral && e.trend != d.position.value.side && !e.ladderEngaged
    requires e.confidence < fast
    ensures StreakInv(Finish(Hold(d, h, e), h), required, fast)
  {
    var p := d.position.value;
    var entry := Counted(h, e.trend, p.side, e.confidence);
    var counted := Note(d.(streak := d.streak + 1), entry);
    CountKeepsStreak(d, h, e, required, fast);
    if counted.streak < required {
      assert Hold(d, h, e) == Result(counted, Completed);
    } else {
      assert Hold(d, h, e) == CloseWith(counted, e, Confirmed(h, p.announced));
      ConfirmKeepsStreak(counted, e, h, p.announced, required, fast);
    }
  }

  lemma HoldKeepsStreak(d: Desk, h: int, e: Env, required: int, fast: real)
    requires StreakInv(d, required, fast) && Thresholds(d, required, fast) && d.position.Some? && h > d.processed
    ensures StreakInv(Finish(Hold(d, h, e), h), required, fast)
  {
    if e.exchange.Flat? || e.trend == Neutral || e.trend == d.position.value.side || e.ladderEngaged {
      HoldSettles(d, h, e, required, fast);
    } else if e.confidence < fast {
      HoldCounts(d, h, e, required, fast);
    } else {
      assert Hold(d, h, e) == CloseWith(d, e, Settled(h, e.trend));
      CloseKeepsStreak(d, e, Settled(h, e.trend), required, fast);
      AdvanceKeepsStreak(Hold(d, h, e).desk, h, required, fast);
    }
  }

  lemma SyncKeepsStreak(d: Desk, x: Exchange, required: int, fast: real)
    requires StreakInv(d, required, fast)
    ensures StreakInv(Sync(d, x), required, fast)
    ensures Sync(d, x).config == d.config && Sync(d, x).processed == d.processed
  {}

  lemma AttemptKeepsStreak(d: Desk, r: Report, e: Env, demo: bool, required: int, fast: real)
    requires StreakInv(d, required, fast) && Thresholds(d, required, fast)
    ensures StreakInv(Attempt(d, r, e, demo).desk, required, fast)
  {
    AdvanceKeepsStreak(d, r.history, required, fast);
    if ReachesTrading(d, r, e) && !e.exchange.Unreachable? {
      var synced := Sync(d, e.exchange);
      SyncKeepsStreak(d, e.exchange, required, fast);
      if synced.position.Some? {
        HoldKeepsStreak(synced, r.history, e, required, fast);
      } else {
        EnterKeepsStreak(synced, r.history, e, demo, required, fast);
        AdvanceKeepsStreak(Enter(synced, r.history, e, demo).desk, r.history, required, fast);
      }
    }
  }

  /** A repeated attempt counts the same report again only once the threshold has been reached. */
  lemma RecountOnlyAtThreshold(d: Desk, r: Report, e: Env, required: int, fast: real)
    requires StreakInv(d, required, fast) && ReachesTrading(d, r, e) && r.history in Streaked(d.log)
    ensures d.streak >= required && |Streaked(d.log)| >= required
  {
    assert d.streak < required ==> r.history <= d.processed;
  }

  /** The thresholds do not change while the run lasts. */
  ghost predicate FixedThresholds(d: Desk, run: seq<Action>, demo: bool, hash: Lifecycle.Hash, required: int,
                                  fast: real)
  {
    forall i :: 0 <= i < |run| ==> Thresholds(After(d, run[..i], demo, hash), required, fast)
  }

  lemma {:induction false} RunKeepsStreak(d: Desk, run: seq<Action>, demo: bool, hash: Lifecycle.Hash, required: int,
                                          fast: real)
    requires StreakInv(d, required, fast) && FixedThresholds(d, run, demo, hash, required, fast)
    ensures StreakInv(After(d, run, demo, hash), required, fast)
  {
    if run != [] {
      var init, a := run[..|run| - 1], run[|run| - 1];
      forall i | 0 <= i < |init| ensures Thresholds(After(d, init[..i], demo, hash), required, fast) {
        assert init[..i] == run[..i];
      }
      RunKeepsStreak(d, init, demo, hash, required, fast);
      var before := After(d, init, demo, hash);
      match a
      case Try(r, e) => AttemptKeepsStreak(before, r, e, demo, required, fast);
      case SyncElsewhere(x) => SyncKeepsStreak(before, x, required, fast);
      case _ =>
    }
  }

  /** An unbroken stretch of opposite reports right behind a point where the streak was zero. */
  predicate CountsFrom(log: seq<Entry>, j: int, fast: real) {
    && 0 <= j < |log| && (log[j].Opened? || log[j].Settled?)
    && forall k :: j < k < |log| ==> log[k].Counted? && Opposite(log[k], fast)
  }

  function HistoriesFrom(log: seq<Entry>, j: int): set<int>
    requires 0 <= j < |log|
  {
    set k | j < k < |log| && log[k].Counted? :: log[k].history
  }

  lemma HistoriesExtend(log: seq<Entry>, j: int)
    requires 0 <= j < |log| - 1 && log[|log| - 1].Counted?
    ensures HistoriesFrom(log, j) == HistoriesFrom(log[..|log| - 1], j) + {log[|log| - 1].history}
  {
    var init := log[..|log| - 1];
    forall h | h in HistoriesFrom(log, j) ensures h in HistoriesFrom(init, j) + {log[|log| - 1].history} {
      var k :| j < k < |log| && log[k].Counted? && log[k].history == h;
      if k < |init| { assert init[k] == log[k]; }
    }
    forall h | h in HistoriesFrom(init, j) ensures h in HistoriesFrom(log, j) {
      var k :| j < k < |init| && init[k].Counted? && init[k].history == h;
      assert log[k] == init[k];
    }
  }

  predicate AllOpposite(log: seq<Entry>, fast: real) {
    forall k :: 0 <= k < |log| && log[k].Counted? ==> Opposite(log[k], fast)
  }

  lemma {:induction false} StreakIsUnbroken(log: seq<Entry>, fast: real) returns (j: int)
    requires SinceOpened(log) && AllOpposite(log, fast)
    ensures CountsFrom(log, j, fast) && SinceOpened(log[..j + 1])
    ensures Streaked(log) == HistoriesFrom(log, j)
  {
    var last, init := log[|log| - 1], log[..|log| - 1];
    if last.Counted? {
      j := StreakIsUnbroken(init, fast);
      assert init[..j + 1] == log[..j + 1];
      HistoriesExtend(log, j);
    } else {
      j := |log| - 1;
      assert log[..j + 1] == log;
      assert HistoriesFrom(log, j) == {};
    }
  }

  /** What a sound log says about one confirmed close in it. */
  lemma EarnedInLog(log: seq<Entry>, required: int, fast: real, k: nat) returns (j: int)
    requires SoundLog(log, required, fast) && k < |log| && log[k].Confirmed? && log[k].announced
    ensures Earned(log, k, j, required, fast)
  {
    var before := log[..k];
    assert SoundEntry(log, k, required, fast);
    forall i | 0 <= i < |before| && before[i].Counted? ensures Opposite(before[i], fast) {
      assert SoundEntry(log, i, required, fast);
    }
    j := StreakIsUnbroken(before, fast);
    assert before[..j + 1] == log[..j + 1];
  }

  /**
   * Up to entry k, right behind the opening or a later point where the streak was zero, an
   * unbroken stretch of opposite reports from enough distinct histories.
   */
  predicate Earned(log: seq<Entry>, k: nat, j: int, required: int, fast: real)
    requires k <= |log|
  {
    CountsFrom(log[..k], j, fast) && SinceOpened(log[..j + 1]) && |HistoriesFrom(log[..k], j)| >= required
  }

  /**
   * A position that was opened with an announcement and is closed as confirmed by opposite
   * reports was preceded, since its opening, by an unbroken stretch of opposite reports of
   * lower confidence, from at least the required number of distinct histories.
   */
  lemma ConfirmedCloseIsEarned(d: Desk, run: seq<Action>, demo: bool, hash: Lifecycle.Hash, required: int, fast: real,
                               k: nat)
    returns (j: int)
    requires StreakInv(d, required, fast) && FixedThresholds(d, run, demo, hash, required, fast)
    requires var log := After(d, run, demo, hash).log; k < |log| && log[k].Confirmed? && log[k].announced
    ensures Earned(After(d, run, demo, hash).log, k, j, required, fast)
  {
    RunKeepsStreak(d, run, demo, hash, required, fast);
    j := EarnedInLog(After(d, run, demo, hash).log, required, fast, k);
  }

  /** A fresh desk satisfies what the theorems about runs assume. */
  lemma FreshDesk(config: Lifecycle.Config, required: int, fast: real, demo: bool)
    requires Lifecycle.Safe(config, demo)
    ensures StreakInv(Fresh(config), required, fast) && OrdersInv(Fresh(config), demo)
  {}

  /** The desk of a config that was just created. */
  function Fresh(config: Lifecycle.Config): Desk {
    Desk(config, 0, 0, None, [], [])
  }

  /**
   * From the creation of a strategy on, whatever is done to it and whatever reports come in:
   * every entry order was allowed, and every confirmed close was earned if the thresholds
   * were not changed.
   */
  lemma SafeFromCreation(p: Lifecycle.Payload, now: int, run: seq<Action>, demo: bool, hash: Lifecycle.Hash,
                         required: int,
                         fast: real)
    ensures var d := Fresh(Lifecycle.Created(p, now, hash));
            && (forall o :: o in After(d, run, demo, hash).orders ==> SafeOrder(o, demo))
            && Increasing(Decided(d, run, demo, hash))
            && (FixedThresholds(d, run, demo, hash, required, fast)
                ==> SoundLog(After(d, run, demo, hash).log, required, fast))
  {
    var config := Lifecycle.Created(p, now, hash);
    var d := Fresh(config);
    FreshDesk(config, required, fast, demo);
    EntriesAreAllowed(d, run, demo, hash);
    DecisionsIncrease(d, run, demo, hash);
    if FixedThresholds(d, run, demo, hash, required, fast) {
      RunKeepsStreak(d, run, demo, hash, required, fast);
    }
  }
}
