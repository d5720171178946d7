/**
 * The life of one strategy config: its editable content, its run state and its promotion.
 *
 * Users save, roll back, start and stop a strategy, promote and demote it; the risk
 * governance pauses it and latches it risk-off. Each command is atomic. What the database,
 * the exchange and the health computation answer is an input of the command.
 */
module Lifecycle {
  import opened Common

  // ----- Promotion stages ---------------------------------------------------------------

  datatype Stage = Research | Sandbox | Validation | Live | Rejected | Archived

  datatype Trigger = SubmitToSandbox | RequestPromotion | GatePassed | GateFailed | Demote | Reject | Archive

  function Transition(stage: Stage, trigger: Trigger): Option<Stage> {
    match (stage, trigger)
    case (Research, SubmitToSandbox) => Some(Sandbox)
    case (Sandbox, RequestPromotion) => Some(Validation)
    case (Validation, GatePassed) => Some(Live)
    case (Validation, GateFailed) => Some(Sandbox)
    case (Live, Demote) => Some(Sandbox)
    case (Research, Reject) => Some(Rejected)
    case (Sandbox, Reject) => Some(Rejected)
    case (Research, Archive) => Some(Archived)
    case (Sandbox, Archive) => Some(Archived)
    case (Validation, Archive) => Some(Archived)
    case (Live, Archive) => Some(Archived)
    case _ => None
  }

  datatype Health = Health(insufficient: bool, samples: int, winRate: real, maxDrawdown: real)

  /** The risk row: the columns the promotion gate reads, and the rest of them. */
  datatype Risk = Risk(minWinRate: Option<real>, maxDrawdown: Option<real>, minTrades: Option<int>,
                       minSandboxDays: Option<real>, limits: string)

  const HEALTH_MIN_TRADES := 10
  const SECONDS_PER_DAY := 86400.0

  function RequiredDays(risk: Option<Risk>): real {
    if risk.Some? && risk.value.minSandboxDays.Some? then risk.value.minSandboxDays.value else 7.0
  }

  function RequiredTrades(risk: Option<Risk>): int {
    if risk.Some? && risk.value.minTrades.Some? then risk.value.minTrades.value else 20
  }

  function RequiredWinRate(risk: Option<Risk>): real {
    if risk.Some? && risk.value.minWinRate.Some? then risk.value.minWinRate.value else 50.0
  }

  function AllowedDrawdown(risk: Option<Risk>): real {
    if risk.Some? && risk.value.maxDrawdown.Some? then risk.value.maxDrawdown.value else 25.0
  }

  predicate Reliable(h: Health, risk: Option<Risk>) {
    !h.insufficient && h.samples >= HEALTH_MIN_TRADES && h.samples >= RequiredTrades(risk)
  }

  /** The promotion gate: a reliable sample, enough days in sandbox, win rate and drawdown. */
  predicate GateOpen(h: Health, risk: Option<Risk>, days: real) {
    && Reliable(h, risk) && days >= RequiredDays(risk)
    && h.winRate >= RequiredWinRate(risk) && h.maxDrawdown <= AllowedDrawdown(risk)
  }

  // ----- The config ---------------------------------------------------------------------

  datatype Settings = Settings(size: real, leverage: int, minConfidence: real, fastCloseConfidence: real,
                               confirmations: int, riskMode: string, stopLoss: real, takeProfit: real)

  /** What a revision captures and a rollback restores. */
  datatype Content = Content(enabled: bool, profile: int, account: int, settings: Settings,
                             strategyProfile: Option<string>, strategyName: Option<string>, forecast: Option<string>,
                             risk: Option<Risk>)

  datatype Field<T> = Unset | Set(value: T)

  /** A save request; fields that were not sent leave the stored value alone. */
  datatype Payload = Payload(enabled: bool, profile: int, account: int, settings: Settings,
                             strategyProfile: Field<Option<string>>, strategyName: Field<Option<string>>,
                             forecast: Field<Option<string>>, risk: Option<Risk>)

  datatype Revision = Revision(number: int, hash: int, snapshot: Content)

  datatype Decision = Promoted | GateRefused | Demoted

  /** An audit row; for gate decisions it carries the tenure and the tenure that was asked for. */
  datatype Event = Event(from: Stage, to: Stage, decision: Decision, at: int, days: real, required: real)

  datatype Config = Config(content: Content, running: bool, stage: Stage, latched: bool, sandboxEnteredAt: Option<int>,
                           createdAt: int, revisions: seq<Revision>, events: seq<Event>)

  type Hash = Content -> int

  ghost predicate Injective(hash: Hash) {
    forall a, b :: hash(a) == hash(b) ==> a == b
  }

  function Sent<T>(f: Field<T>, stored: T): T {
    if f.Set? then f.value else stored
  }

  function Merge(c: Content, p: Payload): Content {
    Content(p.enabled, p.profile, p.account, p.settings, Sent(p.strategyProfile, c.strategyProfile),
            Sent(p.strategyName, c.strategyName), Sent(p.forecast, c.forecast),
            if p.risk.Some? then p.risk else c.risk)
  }

  function NextNumber(revisions: seq<Revision>): int {
    if revisions == [] then 1 else revisions[|revisions| - 1].number + 1
  }

  /** The content is appended as a revision unless the newest one has the same hash. */
  function Recorded(c: Config, hash: Hash): Config {
    if c.revisions != [] && c.revisions[|c.revisions| - 1].hash == hash(c.content) then c
    else c.(revisions := c.revisions + [Revision(NextNumber(c.revisions), hash(c.content), c.content)])
  }

  function Created(p: Payload, now: int, hash: Hash): Config {
    var blank := Content(false, p.profile, p.account, p.settings, None, None, None, None);
    Recorded(Config(Merge(blank, p), false, Sandbox, false, Some(now), now, [], []), hash)
  }

  function Upserted(c: Config, p: Payload, hash: Hash): Config {
    Recorded(c.(content := Merge(c.content, p), running := c.running && p.enabled), hash)
  }

  /** The profile may not change under a running strategy or an open position. */
  predicate Accepts(c: Config, p: Payload, valid: bool, positionOpen: bool) {
    valid && p.account == c.content.account && (p.profile == c.content.profile || (!c.running && !positionOpen))
  }

  function AsPayload(s: Content): Payload {
    Payload(s.enabled, s.profile, s.account, s.settings, Set(s.strategyProfile), Set(s.strategyName), Set(s.forecast),
            s.risk)
  }

  /** The clock of the gate: the sandbox entry, or failing that the creation time. */
  function Anchor(c: Config): int {
    if c.sandboxEnteredAt.Some? then c.sandboxEnteredAt.value else c.createdAt
  }

  function DaysSince(anchor: int, now: int): real {
    MaxR(0.0, (now - anchor) as real / SECONDS_PER_DAY)
  }

  predicate MayStart(c: Config, demo: bool) {
    c.content.enabled && (c.stage == Live || demo)
  }

  // ----- Commands -----------------------------------------------------------------------

  datatype Command =
    | Save(p: Payload, valid: bool, positionOpen: bool)
    | Rollback(index: nat, valid: bool, positionOpen: bool)
    | SetRunning(on: bool)
    | SetRunningBulk(on: bool)
    | AutoPause
    | KillSwitch(positionOpen: bool)
    | Promote(health: Health, now: int)
    | DemoteAt(now: int)
    | ApplyRisk(risk: Risk, allowed: bool)

  function Started(c: Config, on: bool, demo: bool): Config {
    if on && !MayStart(c, demo) then c else c.(running := on, latched := c.latched && !on)
  }

  function PromotedTo(c: Config, h: Health, now: int): Config {
    if c.stage != Sandbox then c
    else
      var days, required := DaysSince(Anchor(c), now), RequiredDays(c.content.risk);
      if GateOpen(h, c.content.risk, days) then
        c.(stage := Live, sandboxEnteredAt := None,
           events := c.events + [Event(Sandbox, Live, Promoted, now, days, required)])
      else
        c.(events := c.events + [Event(Sandbox, Sandbox, GateRefused, now, days, required)])
  }

  function DemotedTo(c: Config, now: int): Config {
    if c.stage != Live then c
    else c.(stage := Sandbox, sandboxEnteredAt := Some(now), running := false,
            events := c.events + [Event(Live, Sandbox, Demoted, now, 0.0, 0.0)])
  }

  /** The config after a command; a rejected command changes nothing but may be logged. */
  function Step(c: Config, cmd: Command, demo: bool, hash: Hash): Config {
    match cmd
    case Save(p, valid, positionOpen) => if Accepts(c, p, valid, positionOpen) then Upserted(c, p, hash) else c
    case Rollback(i, valid, positionOpen) =>
      if i < |c.revisions| && Accepts(c, AsPayload(c.revisions[i].snapshot), valid, positionOpen)
      then Upserted(c, AsPayload(c.revisions[i].snapshot), hash) else c
    case SetRunning(on) => Started(c, on, demo)
    case SetRunningBulk(on) => if c.running == on then c else Started(c, on, demo)
    case AutoPause => c.(running := false)
    case KillSwitch(positionOpen) => if positionOpen then c.(running := false, latched := true) else c
    case Promote(health, now) => PromotedTo(c, health, now)
    case DemoteAt(now) => DemotedTo(c, now)
    case ApplyRisk(risk, allowed) => if allowed then c.(content := c.content.(risk := Some(risk))) else c
  }

  function After(c: Config, run: seq<Command>, demo: bool, hash: Hash): Config {
    if run == [] then c else Step(After(c, run[..|run| - 1], demo, hash), run[|run| - 1], demo, hash)
  }

  /** One strategy row with its risk row, revisions and audit trail. */
  class Strategy {
    const demo: bool
    const hash: Hash
    var content: Content
    var running: bool
    var stage: Stage
    var latched: bool
    var sandboxEnteredAt: Option<int>
    var createdAt: int
    var revisions: seq<Revision>
    var events: seq<Event>

    ghost function View(): Config
      reads this
    {
      Config(content, running, stage, latched, sandboxEnteredAt, createdAt, revisions, events)
    }

    constructor (p: Payload, now: int, demo: bool, hash: Hash)
      ensures this.demo == demo && this.hash == hash
      ensures View() == Created(p, now, hash)
    {
      this.demo, this.hash := demo, hash;
      content := Content(p.enabled, p.profile, p.account, p.settings, Sent(p.strategyProfile, None),
                         Sent(p.strategyName, None), Sent(p.forecast, None), p.risk);
      running, stage, latched, sandboxEnteredAt, createdAt := false, Sandbox, false, Some(now), now;
      revisions, events := [], [];
      new;
      RecordRevision();
    }

    method RecordRevision()
      modifies `revisions
      ensures View() == Recorded(old(View()), hash)
    {
      var h := hash(content);
      var next := 1;
      if revisions != [] {
        var latest := revisions[|revisions| - 1];
        if latest.hash == h { return; }
        next := latest.number + 1;
      }
      revisions := revisions + [Revision(next, h, content)];
    }

    method ApplyRiskConfig(risk: Option<Risk>)
      modifies `content
      ensures content == old(content).(risk := if risk.Some? then risk else old(content).risk)
    {
      if risk.None? { return; }
      content := content.(risk := risk);
    }

    method Upsert(p: Payload, valid: bool, positionOpen: bool) returns (ok: bool)
      modifies this
      ensures View() == Step(old(View()), Save(p, valid, positionOpen), demo, hash)
      ensures ok <==> Accepts(old(View()), p, valid, positionOpen)
    {
      if !valid || p.account != content.account { return false; }
      if content.profile != p.profile {
        if running { return false; }
        if positionOpen { return false; }
      }
      WriteContent(p);
      if !content.enabled { running := false; }
      RecordRevision();
      ok := true;
    }

    method WriteContent(p: Payload)
      modifies `content
      ensures content == Merge(old(content), p)
    {
      content := content.(profile := p.profile, account := p.account, enabled := p.enabled, settings := p.settings);
      if p.strategyProfile.Set? { content := content.(strategyProfile := p.strategyProfile.value); }
      if p.strategyName.Set? { content := content.(strategyName := p.strategyName.value); }
      if p.forecast.Set? { content := content.(forecast := p.forecast.value); }
      ApplyRiskConfig(p.risk);
    }

    method RollbackTo(index: nat, valid: bool, positionOpen: bool) returns (ok: bool)
      modifies this
      ensures View() == Step(old(View()), Rollback(index, valid, positionOpen), demo, hash)
      ensures ok <==> (index < |old(revisions)|
                       && Accepts(old(View()), AsPayload(old(revisions)[index].snapshot), valid, positionOpen))
    {
      if index >= |revisions| { return false; }
      ok := Upsert(AsPayload(revisions[index].snapshot), valid, positionOpen);
    }

    method Run(on: bool) returns (ok: bool)
      modifies this
      ensures View() == Step(old(View()), SetRunning(on), demo, hash)
      ensures ok <==> !on || MayStart(old(View()), demo)
    {
      if on && !content.enabled { return false; }
      if on && stage != Live && !demo { return false; }
      running := on;
      if on { latched := false; }
      ok := true;
    }

    method RunInBulk(on: bool) returns (changed: bool)
      modifies this
      ensures View() == Step(old(View()), SetRunningBulk(on), demo, hash)
      ensures changed <==> View() != old(View())
    {
      if on && !content.enabled { return false; }
      if running == on { return false; }
      changed := Run(on);
    }

    method Pause() returns (paused: bool)
      modifies this
      ensures View() == Step(old(View()), AutoPause, demo, hash)
      ensures paused <==> old(running)
    {
      if !running { return false; }
      running := false;
      paused := true;
    }

    method TripKillSwitch(positionOpen: bool)
      modifies this
      ensures View() == Step(old(View()), KillSwitch(positionOpen), demo, hash)
    {
      if !positionOpen { return; }
      var _ := Pause();
      latched := true;
    }

    method PromoteStrategy(health: Health, now: int) returns (ok: bool)
      modifies this
      ensures View() == Step(old(View()), Promote(health, now), demo, hash)
      ensures ok <==> old(stage) == Sandbox && stage == Live
    {
      if stage != Sandbox { return false; }
      var anchor := if sandboxEnteredAt.Some? then sandboxEnteredAt.value else createdAt;
      var days, required := DaysSince(anchor, now), RequiredDays(content.risk);
      if !GateOpen(health, content.risk, days) {
        events := events + [Event(stage, stage, GateRefused, now, days, required)];
        return false;
      }
      var next := Transition(stage, RequestPromotion);
      next := Transition(next.value, GatePassed);
      events := events + [Event(Sandbox, next.value, Promoted, now, days, required)];
      stage, sandboxEnteredAt, ok := next.value, None, true;
    }

    method DemoteStrategy(now: int) returns (ok: bool)
      modifies this
      ensures View() == Step(old(View()), DemoteAt(now), demo, hash)
      ensures ok <==> old(stage) == Live
    {
      var next := Transition(stage, Demote);
      if next.None? { return false; }
      events := events + [Event(stage, next.value, Demoted, now, 0.0, 0.0)];
      stage, sandboxEnteredAt := next.value, Some(now);
      if running { running := false; }
      ok := true;
    }

    method ApplyRiskFromBatch(risk: Risk, allowed: bool)
      modifies this
      ensures View() == Step(old(View()), ApplyRisk(risk, allowed), demo, hash)
    {
      if allowed { ApplyRiskConfig(Some(risk)); }
    }
  }

  // ----- Run safety ---------------------------------------------------------------------

  /** A running strategy is enabled, not latched risk-off, and live or on a demo account. */
  predicate Safe(c: Config, demo: bool) {
    c.running ==> c.content.enabled && !c.latched && (c.stage == Live || demo)
  }

  lemma StepKeepsSafe(c: Config, cmd: Command, demo: bool, hash: Hash)
    requires Safe(c, demo)
    ensures Safe(Step(c, cmd, demo, hash), demo)
  {}

  /** After any commands, however they interleave, a running strategy is allowed to run. */
  lemma {:induction false} RunsAreSafe(p: Payload, now: int, run: seq<Command>, demo: bool, hash: Hash)
    ensures Safe(After(Created(p, now, hash), run, demo, hash), demo)
  {
    if run != [] {
      RunsAreSafe(p, now, run[..|run| - 1], demo, hash);
      StepKeepsSafe(After(Created(p, now, hash), run[..|run| - 1], demo, hash), run[|run| - 1], demo, hash);
    }
  }

  /** The latch is only opened by starting the strategy by hand. */
  lemma LatchHoldsUntilRestart(c: Config, cmd: Command, demo: bool, hash: Hash)
    requires c.latched
    ensures Step(c, cmd, demo, hash).latched
            <==> !(Starts(cmd) && MayStart(c, demo) && (cmd.SetRunning? || !c.running))
  {}

  // ----- What each command does to a strategy -------------------------------------------

  /** A save that is accepted: valid, of the same account, and no change of profile in use. */
  predicate Allowed(c: Config, account: int, profile: int, valid: bool, positionOpen: bool) {
    valid && account == c.content.account && (profile != c.content.profile ==> !c.running && !positionOpen)
  }

  /**
   * Exactly when a strategy runs after a command: a start needs an enabled strategy that is
   * live or on a demo account, a stop and a pause always work, and so do a trip, a demotion
   * and a save or rollback that disables it.
   */
  lemma RunsAfterIff(c: Config, cmd: Command, demo: bool, hash: Hash)
    ensures Step(c, cmd, demo, hash).running
       <==> match cmd
            case SetRunning(on) => on && (c.running || (c.content.enabled && (c.stage == Live || demo)))
            case SetRunningBulk(on) => on && (c.running || (c.content.enabled && (c.stage == Live || demo)))
            case AutoPause => false
            case KillSwitch(positionOpen) => c.running && !positionOpen
            case DemoteAt(_) => c.running && c.stage != Live
            case Save(p, valid, open) =>
              c.running && (Allowed(c, p.account, p.profile, valid, open) ==> p.enabled)
            case Rollback(i, valid, open) =>
              c.running && (i < |c.revisions|
                            && Allowed(c, c.revisions[i].snapshot.account, c.revisions[i].snapshot.profile, valid, open)
                            ==> c.revisions[i].snapshot.enabled)
            case _ => c.running
  {}

  /** Only the kill-switch of an open position latches, and only an accepted start unlatches. */
  lemma LatchedAfterIff(c: Config, cmd: Command, demo: bool, hash: Hash)
    ensures Step(c, cmd, demo, hash).latched
       <==> match cmd
            case SetRunning(on) => c.latched && !(on && c.content.enabled && (c.stage == Live || demo))
            case SetRunningBulk(on) =>
              c.latched && !(on && !c.running && c.content.enabled && (c.stage == Live || demo))
            case KillSwitch(positionOpen) => c.latched || positionOpen
            case _ => c.latched
  {}

  /** A new strategy is stopped and unlatched, starts its time in sandbox and has one revision. */
  lemma CreatedInSandbox(p: Payload, now: int, hash: Hash)
    ensures var c := Created(p, now, hash);
            && !c.running && !c.latched && c.stage == Sandbox && c.sandboxEnteredAt == Some(now) && c.createdAt == now
            && c.events == [] && c.revisions == [Revision(1, hash(c.content), c.content)]
            && c.content.enabled == p.enabled && c.content.profile == p.profile && c.content.account == p.account
            && c.content.settings == p.settings && c.content.risk == p.risk
            && c.content.strategyProfile == (if p.strategyProfile.Set? then p.strategyProfile.value else None)
            && c.content.strategyName == (if p.strategyName.Set? then p.strategyName.value else None)
            && c.content.forecast == (if p.forecast.Set? then p.forecast.value else None)
  {}

  /** The batch write replaces the risk row, without a revision, and nothing else. */
  lemma RiskBatchWrites(c: Config, risk: Risk, allowed: bool, demo: bool, hash: Hash)
    ensures var after := Step(c, ApplyRisk(risk, allowed), demo, hash);
            && after.content.risk == (if allowed then Some(risk) else c.content.risk)
            && after == c.(content := c.content.(risk := after.content.risk))
  {}

  /** What a save writes, field by field, and what it leaves alone. */
  lemma SaveWrites(c: Config, p: Payload, valid: bool, positionOpen: bool, demo: bool, hash: Hash)
    ensures var after := Step(c, Save(p, valid, positionOpen), demo, hash);
            if !Allowed(c, p.account, p.profile, valid, positionOpen) then after == c
            else
              && after.content.enabled == p.enabled && after.content.profile == p.profile
              && after.content.account == p.account && after.content.settings == p.settings
              && after.content.strategyProfile
                 == (if p.strategyProfile.Set? then p.strategyProfile.value else c.content.strategyProfile)
              && after.content.strategyName
                 == (if p.strategyName.Set? then p.strategyName.value else c.content.strategyName)
              && after.content.forecast == (if p.forecast.Set? then p.forecast.value else c.content.forecast)
              && after.content.risk == (if p.risk.Some? then p.risk else c.content.risk)
              && after == c.(content := after.content, running := after.running, revisions := after.revisions)
  {}

  /** A promotion and a demotion, on the stage, the clock and the audit trail. */
  lemma StageMoves(c: Config, cmd: Command, demo: bool, hash: Hash)
    ensures var after := Step(c, cmd, demo, hash);
            if cmd.Promote? && c.stage == Sandbox then
              && |after.events| == |c.events| + 1 && after.events[..|c.events|] == c.events
              && var e := after.events[|c.events|];
                 && e.from == Sandbox && e.to == after.stage && e.at == cmd.now
                 && (e.decision == Promoted <==> after.stage == Live)
                 && (e.decision == GateRefused <==> after.stage != Live)
                 && (after.stage == Live ==> after.sandboxEnteredAt.None?)
                 && (after.stage != Live ==> after == c.(events := after.events))
            else if cmd.DemoteAt? && c.stage == Live then
              && after.stage == Sandbox && after.sandboxEnteredAt == Some(cmd.now) && !after.running
              && after.events == c.events + [Event(Live, Sandbox, Demoted, cmd.now, 0.0, 0.0)]
            else
              after.stage == c.stage && after.sandboxEnteredAt == c.sandboxEnteredAt && after.events == c.events
  {}

  /** Live is entered only from validation by a passed gate, and rejected and archived are final. */
  lemma TransitionTable(stage: Stage, trigger: Trigger)
    ensures Transition(stage, trigger) == Some(Live) <==> stage == Validation && trigger == GatePassed
    ensures Transition(stage, trigger) == Some(Validation) <==> stage == Sandbox && trigger == RequestPromotion
    ensures Transition(stage, trigger) == Some(Sandbox)
       <==> (stage, trigger) in {(Research, SubmitToSandbox), (Validation, GateFailed), (Live, Demote)}
    ensures Transition(stage, trigger) == Some(Rejected) <==> trigger == Reject && stage in {Research, Sandbox}
    ensures Transition(stage, trigger) == Some(Archived) <==> trigger == Archive && stage !in {Rejected, Archived}
    ensures Transition(stage, trigger) != Some(Research)
  {}

  // ----- A kill-switch that read the config earlier --------------------------------------

  /**
   * The kill-switch loads the config without a lock before it closes the position, and the
   * locking read of the pause does not reload it: it stops the strategy only if it was
   * running when it was loaded, and latches it in any case.
   */
  function Tripped(c: Config, sawRunning: bool): Config {
    c.(running := c.running && !sawRunning, latched := true)
  }

  /** With nothing in between it is the atomic command. */
  lemma FreshTripIsAtomic(c: Config, demo: bool, hash: Hash)
    ensures Tripped(c, c.running) == Step(c, KillSwitch(true), demo, hash)
  {}

  predicate Starts(cmd: Command) {
    (cmd.SetRunning? || cmd.SetRunningBulk?) && cmd.on
  }

  /** Only a start makes a stopped strategy run. */
  lemma {:induction false} RunningNeedsAStart(c: Config, run: seq<Command>, demo: bool, hash: Hash)
    requires !c.running && forall k :: 0 <= k < |run| ==> !Starts(run[k])
    ensures !After(c, run, demo, hash).running
  {
    if run != [] {
      RunningNeedsAStart(c, run[..|run| - 1], demo, hash);
      assert !Starts(run[|run| - 1]);
    }
  }

  /**
   * Exactly when a trip that read the config before other commands keeps the run invariant:
   * the strategy was running when it was read, or is not running when it is written. The
   * only way to fail is a start in between.
   */
  lemma StaleTripIsSafeIff(c: Config, run: seq<Command>, demo: bool, hash: Hash)
    ensures Safe(Tripped(After(c, run, demo, hash), c.running), demo)
            <==> c.running || !After(c, run, demo, hash).running
    ensures (forall k :: 0 <= k < |run| ==> !Starts(run[k]))
            ==> Safe(Tripped(After(c, run, demo, hash), c.running), demo)
  {
    if !c.running && forall k :: 0 <= k < |run| ==> !Starts(run[k]) {
      RunningNeedsAStart(c, run, demo, hash);
    }
  }

  /** Read while stopped, started, then tripped: the strategy runs although it is latched. */
  lemma StaleTripLeavesALatchedStrategyRunning(c: Config, hash: Hash)
    requires c.content.enabled && !c.running
    ensures var after := Tripped(After(c, [SetRunning(true)], true, hash), c.running);
            after.running && after.latched && !Safe(after, true)
  {
    var run := [SetRunning(true)];
    assert run[..0] == [];
    assert After(c, [], true, hash) == c;
    assert After(c, run, true, hash) == Step(c, SetRunning(true), true, hash);
  }

  // ----- Revision history ---------------------------------------------------------------

  /** Numbered 1 to n, hashes right, neighbours different, all of this account. */
  predicate WellNumbered(c: Config, hash: Hash) {
    && c.revisions != []
    && (forall i :: 0 <= i < |c.revisions| ==> c.revisions[i].number == i + 1)
    && (forall r :: r in c.revisions ==> r.hash == hash(r.snapshot) && r.snapshot.account == c.content.account)
    && (forall i :: 0 < i < |c.revisions| ==> c.revisions[i - 1].snapshot != c.revisions[i].snapshot)
  }

  /** Only the risk block can have moved on since the newest revision. */
  predicate Current(c: Config)
    requires c.revisions != []
  {
    c.revisions[|c.revisions| - 1].snapshot.(risk := c.content.risk) == c.content
  }

  predicate NewestIsLive(c: Config) {
    c.revisions != [] && c.revisions[|c.revisions| - 1].snapshot == c.content
  }

  /** Recording keeps the numbering and leaves the live content as the newest revision. */
  lemma RecordingIsSound(c: Config, hash: Hash)
    requires Injective(hash) && (c.revisions == [] || WellNumbered(c, hash))
    ensures WellNumbered(Recorded(c, hash), hash) && NewestIsLive(Recorded(c, hash))
    ensures c.revisions <= Recorded(c, hash).revisions
  {}

  lemma UpsertIsSound(c: Config, p: Payload, hash: Hash)
    requires Injective(hash) && WellNumbered(c, hash) && p.account == c.content.account
    ensures WellNumbered(Upserted(c, p, hash), hash) && NewestIsLive(Upserted(c, p, hash))
    ensures c.revisions <= Upserted(c, p, hash).revisions
    ensures Upserted(c, p, hash).content == Merge(c.content, p)
  {
    RecordingIsSound(c.(content := Merge(c.content, p), running := c.running && p.enabled), hash);
  }

  ghost predicate HistoryInv(c: Config, hash: Hash) {
    WellNumbered(c, hash) && Current(c)
  }

  lemma StepKeepsHistory(c: Config, cmd: Command, demo: bool, hash: Hash)
    requires Injective(hash) && HistoryInv(c, hash)
    ensures HistoryInv(Step(c, cmd, demo, hash), hash) && Step(c, cmd, demo, hash).content.account == c.content.account
    ensures c.revisions <= Step(c, cmd, demo, hash).revisions
  {
    if cmd.Save? {
      if Accepts(c, cmd.p, cmd.valid, cmd.positionOpen) { UpsertKeepsHistory(c, cmd.p, hash); }
    } else if cmd.Rollback? {
      if cmd.index < |c.revisions| {
        var p := AsPayload(c.revisions[cmd.index].snapshot);
        if Accepts(c, p, cmd.valid, cmd.positionOpen) { UpsertKeepsHistory(c, p, hash); }
      }
    } else {
      RestKeepsHistory(c, cmd, demo, hash);
    }
  }

  lemma UpsertKeepsHistory(c: Config, p: Payload, hash: Hash)
    requires Injective(hash) && HistoryInv(c, hash) && p.account == c.content.account
    ensures HistoryInv(Upserted(c, p, hash), hash) && Upserted(c, p, hash).content.account == c.content.account
    ensures c.revisions <= Upserted(c, p, hash).revisions
  {
    UpsertIsSound(c, p, hash);
  }

  lemma RestKeepsHistory(c: Config, cmd: Command, demo: bool, hash: Hash)
    requires HistoryInv(c, hash) && !cmd.Save? && !cmd.Rollback?
    ensures var after := Step(c, cmd, demo, hash);
            HistoryInv(after, hash) && after.revisions == c.revisions && after.content.account == c.content.account
  {
    var after := Step(c, cmd, demo, hash);
    assert after.revisions == c.revisions && after.content.(risk := c.content.risk) == c.content;
  }

  /** Over any run the history is numbered without gaps, never repeats itself and is never rewritten. */
  lemma {:induction false} HistoryIsAppendOnly(c: Config, run: seq<Command>, demo: bool, hash: Hash)
    requires Injective(hash) && HistoryInv(c, hash)
    ensures HistoryInv(After(c, run, demo, hash), hash)
    ensures After(c, run, demo, hash).content.account == c.content.account
    ensures c.revisions <= After(c, run, demo, hash).revisions
  {
    if run != [] {
      HistoryIsAppendOnly(c, run[..|run| - 1], demo, hash);
      StepKeepsHistory(After(c, run[..|run| - 1], demo, hash), run[|run| - 1], demo, hash);
    }
  }

  lemma CreationStartsHistory(p: Payload, now: int, hash: Hash)
    requires Injective(hash)
    ensures HistoryInv(Created(p, now, hash), hash) && NewestIsLive(Created(p, now, hash))
  {}

  /** After every accepted save the newest revision is the live content. */
  lemma SaveIsRecorded(c: Config, p: Payload, positionOpen: bool, demo: bool, hash: Hash)
    requires Injective(hash) && HistoryInv(c, hash) && Accepts(c, p, true, positionOpen)
    ensures var after := Step(c, Save(p, true, positionOpen), demo, hash);
            NewestIsLive(after) && after.content == Merge(c.content, p)
            && |after.revisions| - |c.revisions|
               == if c.revisions[|c.revisions| - 1].snapshot == Merge(c.content, p) then 0 else 1
  {
    UpsertIsSound(c, p, hash);
  }

  /**
   * A rollback to any revision of the history is accepted exactly when the profile may
   * change, restores the revision's content (its risk block only if it has one), is itself
   * recorded, and leaves stage, latch, clock and audit trail alone.
   */
  lemma RollbackRestores(c: Config, i: nat, valid: bool, positionOpen: bool, demo: bool, hash: Hash)
    requires Injective(hash) && HistoryInv(c, hash) && i < |c.revisions|
    ensures var after, snap := Step(c, Rollback(i, valid, positionOpen), demo, hash), c.revisions[i].snapshot;
            if valid && (snap.profile == c.content.profile || (!c.running && !positionOpen)) then
              after.content == (if snap.risk.Some? then snap else snap.(risk := c.content.risk))
              && NewestIsLive(after) && after.running == (c.running && snap.enabled)
              && after == c.(content := after.content, running := after.running, revisions := after.revisions)
            else after == c
  {
    UpsertIsSound(c, AsPayload(c.revisions[i].snapshot), hash);
  }

  /** Saving and rolling back to the revision before it undoes the save. */
  lemma RollbackUndoesSave(c: Config, p: Payload, demo: bool, hash: Hash)
    requires Injective(hash) && HistoryInv(c, hash) && NewestIsLive(c) && c.content.risk.Some?
    requires !c.running && Accepts(c, p, true, false)
    ensures var saved := Step(c, Save(p, true, false), demo, hash);
            Step(saved, Rollback(|c.revisions| - 1, true, false), demo, hash).content == c.content
  {
    var saved := Step(c, Save(p, true, false), demo, hash);
    StepKeepsHistory(c, Save(p, true, false), demo, hash);
    RollbackRestores(saved, |c.revisions| - 1, true, false, demo, hash);
  }

  // ----- Promotion ----------------------------------------------------------------------

  /** The stage that the audit trail leads to from sandbox. */
  function Folded(events: seq<Event>): Stage {
    if events == [] then Sandbox else events[|events| - 1].to
  }

  /** When the strategy last entered sandbox, told from the audit trail alone. */
  function LastEntry(createdAt: int, events: seq<Event>): int {
    if events == [] then createdAt
    else if events[|events| - 1].decision == Demoted then events[|events| - 1].at
    else LastEntry(createdAt, events[..|events| - 1])
  }

  /** The event continues the trail and, if it is a promotion, had served its time in sandbox. */
  predicate SoundEvent(createdAt: int, events: seq<Event>, k: nat)
    requires k < |events|
  {
    var e := events[k];
    && e.from == Folded(events[..k])
    && (e.decision == Promoted ==> e.from == Sandbox && e.to == Live && e.days >= e.required)
    && (e.decision == Promoted ==> e.days == DaysSince(LastEntry(createdAt, events[..k]), e.at))
    && (e.decision == Demoted ==> e.from == Live && e.to == Sandbox)
    && (e.decision == GateRefused ==> e.from == e.to == Sandbox)
  }

  /** The trail explains the stage, and in sandbox the clock shows the last entry. */
  ghost predicate PromotionInv(c: Config) {
    && (forall k :: 0 <= k < |c.events| ==> SoundEvent(c.createdAt, c.events, k))
    && c.stage == Folded(c.events) && (c.stage == Sandbox || c.stage == Live)
    && (c.stage == Sandbox ==> c.sandboxEnteredAt.Some? && c.sandboxEnteredAt.value == LastEntry(c.createdAt, c.events))
    && (c.stage == Live ==> c.sandboxEnteredAt.None?)
  }

  lemma AppendEvent(createdAt: int, events: seq<Event>, e: Event)
    requires forall k :: 0 <= k < |events| ==> SoundEvent(createdAt, events, k)
    requires SoundEvent(createdAt, events + [e], |events|)
    ensures forall k :: 0 <= k <= |events| ==> SoundEvent(createdAt, events + [e], k)
    ensures Folded(events + [e]) == e.to
    ensures LastEntry(createdAt, events + [e]) == if e.decision == Demoted then e.at else LastEntry(createdAt, events)
  {
    forall k | 0 <= k < |events| ensures SoundEvent(createdAt, events + [e], k) {
      assert (events + [e])[..k] == events[..k];
      assert SoundEvent(createdAt, events, k);
    }
    assert (events + [e])[..|events|] == events;
  }

  lemma PromoteKeepsTrail(c: Config, h: Health, now: int)
    requires PromotionInv(c)
    ensures PromotionInv(PromotedTo(c, h, now))
  {
    var after := PromotedTo(c, h, now);
    if c.stage == Sandbox {
      var e := after.events[|c.events|];
      assert after.events == c.events + [e] && after.events[..|c.events|] == c.events;
      AppendEvent(c.createdAt, c.events, e);
    }
  }

  lemma DemoteKeepsTrail(c: Config, now: int)
    requires PromotionInv(c)
    ensures PromotionInv(DemotedTo(c, now))
  {
    var after := DemotedTo(c, now);
    if c.stage == Live {
      var e := after.events[|c.events|];
      assert after.events == c.events + [e] && after.events[..|c.events|] == c.events;
      AppendEvent(c.createdAt, c.events, e);
    }
  }

  lemma StepKeepsPromotion(c: Config, cmd: Command, demo: bool, hash: Hash)
    requires PromotionInv(c)
    ensures PromotionInv(Step(c, cmd, demo, hash))
  {
    match cmd
    case Promote(health, now) => PromoteKeepsTrail(c, health, now);
    case DemoteAt(now) => DemoteKeepsTrail(c, now);
    case _ =>
  }

  /**
   * In any run the audit trail folds to the stored stage, every promotion had spent the
   * required days in sandbox since the last entry, and the creation-time fallback of the
   * clock is never taken.
   */
  lemma {:induction false} PromotionsAreEarned(p: Payload, now: int, run: seq<Command>, demo: bool, hash: Hash)
    ensures PromotionInv(After(Created(p, now, hash), run, demo, hash))
  {
    if run != [] {
      var before := After(Created(p, now, hash), run[..|run| - 1], demo, hash);
      PromotionsAreEarned(p, now, run[..|run| - 1], demo, hash);
      StepKeepsPromotion(before, run[|run| - 1], demo, hash);
    }
  }

  /** A step makes a strategy live exactly by passing the gate with tenure from the last entry. */
  lemma LiveOnlyThroughTheGate(c: Config, cmd: Command, demo: bool, hash: Hash)
    requires PromotionInv(c) && c.stage != Live
    ensures var entry := LastEntry(c.createdAt, c.events);
            Step(c, cmd, demo, hash).stage == Live
            <==> cmd.Promote? && GateOpen(cmd.health, c.content.risk, DaysSince(entry, cmd.now))
  {}

  /**
   * What the gate asks, with the default of every threshold that is not set: a sample of at
   * least ten trades and as many as required, the days in sandbox, the win rate and the
   * drawdown.
   */
  lemma PromotionNeedsTheFigures(c: Config, h: Health, now: int, demo: bool, hash: Hash)
    requires PromotionInv(c) && c.stage == Sandbox
    ensures var risk, seconds := c.content.risk, (now - LastEntry(c.createdAt, c.events)) as real;
            var trades := if risk.Some? && risk.value.minTrades.Some? then risk.value.minTrades.value else 20;
            var days := if risk.Some? && risk.value.minSandboxDays.Some? then risk.value.minSandboxDays.value else 7.0;
            var wins := if risk.Some? && risk.value.minWinRate.Some? then risk.value.minWinRate.value else 50.0;
            var loss := if risk.Some? && risk.value.maxDrawdown.Some? then risk.value.maxDrawdown.value else 25.0;
            Step(c, Promote(h, now), demo, hash).stage == Live
            <==> (!h.insufficient && h.samples >= 10 && h.samples >= trades
                  && (days <= 0.0 || seconds >= days * 86400.0) && h.winRate >= wins && h.maxDrawdown <= loss)
  {
    LiveOnlyThroughTheGate(c, Promote(h, now), demo, hash);
  }
}
