/**
 * Who may close a position row, and in which interleavings.
 *
 * One position row in the database, its row lock, and any number of processes on any
 * number of replicas. The REST reconciler closes under the lock after re-reading the row;
 * the partial take-profit reconciler reads under the lock, drives the order queue without
 * it and persists under the lock again; the kill-switch, the signal close and the exchange
 * sync work under the lock; the manual flatten reads without it and writes later. What a
 * process writes is computed from what it read, which may be out of date.
 */
module PositionClose {
  import opened Common
  import opened PositionStates

  datatype Status = StatusOpen | StatusClosed | StatusError

  datatype Reason = Unclosed | Reconciled | KillSwitch | Manual | OppositeSignal | MissingOnExchange | Deduplicated

  datatype Row = Row(status: Status, state: PositionState, reason: Reason)

  predicate IsClosed(r: Row) {
    r.status == StatusClosed || r.state == Closed
  }

  /** Status and state tell the same story about being closed. */
  predicate Consistent(r: Row) {
    r.status == StatusClosed <==> r.state == Closed
  }

  function StatusOf(state: PositionState): Status {
    match state
    case Closed => StatusClosed
    case Cancelled => StatusError
    case Failed => StatusError
    case _ => StatusOpen
  }

  function Marked(reason: Reason): Row {
    Row(StatusClosed, Closed, reason)
  }

  function WithContext(r: Row, context: PositionState): Row {
    r.(state := context, status := StatusOf(context))
  }

  predicate Terminal(s: PositionState) {
    s in {Closed, Cancelled, Failed}
  }

  /** What the exchange sync or the signal close decides about a row it selected. */
  datatype Plan = Leave | Refresh | CloseFor(reason: Reason)

  /** Work done while holding the row lock. */
  datatype Job =
    RestClose | PartialRead | PartialPersist(context: PositionState) | KillClose(works: bool) | Select(plan: Plan)

  predicate Eligible(r: Row) {
    r.status == StatusOpen && r.state != Closed
  }

  /** The row a job leaves behind, computed from the row it read. */
  function Written(job: Job, seen: Row): Row {
    match job
    case RestClose => if IsClosed(seen) then seen else Marked(Reconciled)
    case PartialRead => seen
    case PartialPersist(context) => if Eligible(seen) then WithContext(seen, context) else seen
    case KillClose(works) => if seen.status == StatusOpen && works then Marked(KillSwitch) else seen
    case Select(plan) =>
      if seen.status != StatusOpen then seen
      else match plan
        case Leave => seen
        case Refresh => seen.(state := if Terminal(seen.state) then Open else seen.state)
        case CloseFor(reason) => Marked(reason)
  }

  /** The critical sections as they act on the stored row. */
  class StoredRow {
    var status: Status
    var state: PositionState
    var reason: Reason

    ghost function View(): Row
      reads this
    {
      Row(status, state, reason)
    }

    constructor ()
      ensures View() == Row(StatusOpen, Open, Unclosed)
    {
      status, state, reason := StatusOpen, Open, Unclosed;
    }

    method MarkClosed(why: Reason)
      modifies this
      ensures View() == Marked(why)
    {
      state := Closed;
      status := StatusClosed;
      reason := why;
    }

    method MergeContext(context: PositionState)
      modifies this
      ensures View() == WithContext(old(View()), context)
    {
      state := context;
      status := StatusOf(context);
    }

    method CloseViaRest() returns (closed: bool)
      modifies this
      ensures View() == Written(RestClose, old(View()))
      ensures closed <==> !IsClosed(old(View()))
      ensures IsClosed(View())
      ensures if closed then status == StatusClosed && state == Closed && reason == Reconciled
              else View() == old(View())
    {
      if status == StatusClosed || state == Closed { return false; }
      MarkClosed(Reconciled);
      closed := true;
    }

    method PersistPartial(context: PositionState)
      modifies this
      ensures View() == Written(PartialPersist(context), old(View()))
      ensures IsClosed(old(View())) ==> View() == old(View())
      ensures old(status) == StatusOpen && old(state) != Closed ==> state == context && reason == old(reason)
    {
      if status != StatusOpen || state == Closed { return; }
      MergeContext(context);
    }

    method CloseByKillSwitch(works: bool) returns (closed: bool)
      modifies this
      ensures View() == Written(KillClose(works), old(View()))
      ensures closed <==> works && old(status) == StatusOpen
      ensures closed ==> status == StatusClosed && state == Closed && reason == KillSwitch
      ensures !closed ==> View() == old(View())
    {
      if status != StatusOpen { return false; }
      if works { MarkClosed(KillSwitch); }
      closed := works;
    }
  }

  // ----- What each job does to the row it finds -----------------------------------------

  predicate ClosedFor(r: Row, reason: Reason) {
    r.status == StatusClosed && r.state == Closed && r.reason == reason
  }

  /**
   * A closer closes the row it finds open, with its own reason, and only a closer that was
   * told to does; every other row is left as it was found.
   */
  lemma ClosersClose(job: Job, seen: Row)
    requires Consistent(seen)
    ensures var after := Written(job, seen);
            match job
            case RestClose => if seen.status == StatusClosed then after == seen else ClosedFor(after, Reconciled)
            case KillClose(works) =>
              if seen.status == StatusOpen && works then ClosedFor(after, KillSwitch) else after == seen
            case Select(CloseFor(reason)) =>
              if seen.status == StatusOpen then ClosedFor(after, reason) else after == seen
            case Select(Leave) => after == seen
            case Select(Refresh) =>
              if seen.status == StatusOpen && seen.state in {Cancelled, Failed} then after == seen.(state := Open)
              else after == seen
            case PartialRead => after == seen
            case PartialPersist(context) =>
              if seen.status == StatusOpen then Shows(after, context, seen) else after == seen
  {}

  /** The row shows the context: its state, and the status that goes with it. */
  predicate Shows(r: Row, context: PositionState, was: Row) {
    && r.state == context && r.reason == was.reason
    && (r.status == StatusClosed <==> context == Closed)
    && (r.status == StatusError <==> context == Cancelled || context == Failed)
  }

  // ----- The interleaving machine -------------------------------------------------------

  type Pid = int

  datatype Pc =
    | Idle
    | Waiting(job: Job)               // about to take the row lock
    | Holding(job: Job, seen: Row)    // has the lock and has read the row
    | Driving(context: PositionState) // partial reconcile between its two locked phases
    | Flattening                      // manual flatten after its unlocked read

  datatype System = System(row: Row, lock: Option<Pid>, pcs: map<Pid, Pc>)

  datatype Action =
    | Start(p: Pid, job: Job)
    | Acquire(p: Pid)
    | Commit(p: Pid)
    | Abort(p: Pid)
    | Callback(p: Pid, context: PositionState)
    | Drive(p: Pid, advanced: bool)
    | ReadForFlatten(p: Pid)
    | Flatten(p: Pid, works: bool)
    | PersistRuntime(context: PositionState)

  function PcOf(s: System, p: Pid): Pc {
    if p in s.pcs then s.pcs[p] else Idle
  }

  predicate Enabled(s: System, a: Action) {
    match a
    case Start(p, job) => PcOf(s, p).Idle? && !job.PartialPersist?
    case Acquire(p) => PcOf(s, p).Waiting? && s.lock.None?
    case Commit(p) => PcOf(s, p).Holding?
    case Abort(p) => !PcOf(s, p).Idle?
    case Callback(p, _) => PcOf(s, p).Driving? && s.lock.None?
    case Drive(p, _) => PcOf(s, p).Driving?
    case ReadForFlatten(p) => PcOf(s, p).Idle? && s.row.status == StatusOpen && !Terminal(s.row.state)
    case Flatten(p, works) => PcOf(s, p).Flattening? && (works ==> s.lock.None?)
    case PersistRuntime(_) => s.lock.None?
  }

  /** After its first phase an eligible partial reconcile goes on to drive the engine. */
  function AfterCommit(pc: Pc): Pc
    requires pc.Holding?
  {
    if pc.job.PartialRead? && Eligible(pc.seen) then Driving(pc.seen.state) else Idle
  }

  function Apply(s: System, a: Action): System
    requires Enabled(s, a)
  {
    match a
    case Start(p, job) => s.(pcs := s.pcs[p := Waiting(job)])
    case Acquire(p) => s.(lock := Some(p), pcs := s.pcs[p := Holding(PcOf(s, p).job, s.row)])
    case Commit(p) =>
      System(Written(PcOf(s, p).job, PcOf(s, p).seen), None, s.pcs[p := AfterCommit(PcOf(s, p))])
    case Abort(p) => s.(lock := if s.lock == Some(p) then None else s.lock, pcs := s.pcs[p := Idle])
    case Callback(p, context) => s.(row := WithContext(s.row, context), pcs := s.pcs[p := Driving(context)])
    case Drive(p, advanced) =>
      s.(pcs := s.pcs[p := if advanced then Waiting(PartialPersist(PcOf(s, p).context)) else Idle])
    case ReadForFlatten(p) => s.(pcs := s.pcs[p := Flattening])
    case Flatten(p, works) =>
      s.(row := if works then Marked(Manual) else s.row, pcs := s.pcs[p := Idle])
    case PersistRuntime(context) => s.(row := WithContext(s.row, context))
  }

  /** An action that is not enabled has to wait and changes nothing. */
  function Next(s: System, a: Action): System {
    if Enabled(s, a) then Apply(s, a) else s
  }

  function After(s: System, run: seq<Action>): System {
    if run == [] then s else Next(After(s, run[..|run| - 1]), run[|run| - 1])
  }

  /** The lock belongs to the one process that holds it, and what that process read is still true. */
  ghost predicate Inv(s: System) {
    && Consistent(s.row)
    && (forall p :: PcOf(s, p).Holding? <==> s.lock.Some? && s.lock.value == p)
    && (forall p :: PcOf(s, p).Holding? ==> PcOf(s, p).seen == s.row)
  }

  /** A write of a runtime context that does not look at the row first. */
  predicate WritesUnchecked(s: System, a: Action) {
    (a.PersistRuntime? || a.Callback?) && Enabled(s, a)
  }

  /** A runtime context that is not closed, written over a closed row. */
  predicate Reopens(s: System, a: Action) {
    WritesUnchecked(s, a) && IsClosed(s.row) && a.context != Closed
  }

  ghost predicate NeverReopens(s: System, run: seq<Action>) {
    forall i :: 0 <= i < |run| ==> !Reopens(After(s, run[..i]), run[i])
  }

  /** This action is a REST close that finds the row open. */
  predicate RestCloses(s: System, a: Action) {
    a.Commit? && Enabled(s, a) && PcOf(s, a.p).job.RestClose? && !IsClosed(PcOf(s, a.p).seen)
  }

  function CountRestCloses(s: System, run: seq<Action>): nat {
    if run == [] then 0
    else
      var init, a := run[..|run| - 1], run[|run| - 1];
      CountRestCloses(s, init) + if RestCloses(After(s, init), a) then 1 else 0
  }

  lemma StepKeepsInv(s: System, a: Action)
    requires Inv(s)
    ensures Inv(Next(s, a))
  {
    var after := Next(s, a);
    if a.Commit? && Enabled(s, a) {
      assert PcOf(s, a.p).seen == s.row;
    }
    forall q
      ensures PcOf(after, q).Holding? <==> after.lock.Some? && after.lock.value == q
      ensures PcOf(after, q).Holding? ==> PcOf(after, q).seen == after.row
    {
      assert PcOf(s, q).Holding? <==> s.lock.Some? && s.lock.value == q;
    }
  }

  /** In the machine: when the holder of the lock commits, its job is done to the row as it is now. */
  lemma CommitDoesTheJob(s: System, p: Pid)
    requires Inv(s) && PcOf(s, p).Holding?
    ensures var job, after := PcOf(s, p).job, Next(s, Commit(p));
            && after.lock.None? && after.row == Written(job, s.row)
            && (job == KillClose(true) && s.row.status == StatusOpen ==> ClosedFor(after.row, KillSwitch))
            && (job == RestClose && s.row.status != StatusClosed ==> ClosedFor(after.row, Reconciled))
            && (PcOf(after, p).Driving? <==> job.PartialRead? && s.row.status == StatusOpen)
            && (PcOf(after, p).Driving? ==> PcOf(after, p).context == s.row.state && after.row == s.row)
  {
    assert PcOf(s, p).seen == s.row;
  }

  /** The phases of a partial reconcile: it persists the context it ends with, and only if it advanced. */
  lemma PhasesFollow(s: System, p: Pid, context: PositionState, advanced: bool)
    requires PcOf(s, p) == Driving(context)
    ensures var after := Next(s, Drive(p, advanced));
            && after.row == s.row && after.lock == s.lock
            && PcOf(after, p) == if advanced then Waiting(PartialPersist(context)) else Idle
    ensures s.lock.None?
            ==> PcOf(After(s, [Drive(p, true), Acquire(p)]), p) == Holding(PartialPersist(context), s.row)
  {
    var run := [Drive(p, true), Acquire(p)];
    assert run[..1] == [Drive(p, true)] && run[..1][..0] == [];
    assert After(s, []) == s;
    assert After(s, run[..1]) == Next(s, Drive(p, true));
  }

  /** The writes outside the lock: a flatten that works closes, a runtime write shows its context whatever was there. */
  lemma UncheckedWrites(s: System, a: Action)
    requires Enabled(s, a)
    ensures a.Flatten? ==> if a.works then ClosedFor(Next(s, a).row, Manual) else Next(s, a).row == s.row
    ensures a.PersistRuntime? || a.Callback? ==> Shows(Next(s, a).row, a.context, s.row)
  {}

  /** One step reopens a closed row exactly when it is an unchecked write of an open context. */
  lemma StepKeepsClosedIff(s: System, a: Action)
    requires Inv(s) && IsClosed(s.row)
    ensures IsClosed(Next(s, a).row) <==> !Reopens(s, a)
  {
    if a.Commit? && Enabled(s, a) {
      assert PcOf(s, a.p).seen == s.row;
    }
  }

  lemma {:induction false} RunKeepsInv(s: System, run: seq<Action>)
    requires Inv(s)
    ensures Inv(After(s, run))
  {
    if run != [] {
      RunKeepsInv(s, run[..|run| - 1]);
      StepKeepsInv(After(s, run[..|run| - 1]), run[|run| - 1]);
    }
  }

  lemma PrefixNeverReopens(s: System, run: seq<Action>)
    requires run != [] && NeverReopens(s, run)
    ensures NeverReopens(s, run[..|run| - 1]) && !Reopens(After(s, run[..|run| - 1]), run[|run| - 1])
  {
    var init := run[..|run| - 1];
    forall i | 0 <= i < |init| ensures !Reopens(After(s, init[..i]), init[i]) {
      assert init[..i] == run[..i];
    }
  }

  /**
   * However the processes interleave, a row that was closed at some point stays closed, as
   * long as no unchecked write puts an open context over it.
   */
  lemma {:induction false} ClosedIsAbsorbing(s: System, run: seq<Action>, i: nat)
    requires Inv(s) && NeverReopens(s, run)
    requires i <= |run| && IsClosed(After(s, run[..i]).row)
    ensures IsClosed(After(s, run).row)
  {
    if i == |run| {
      assert run[..i] == run;
    } else {
      var init := run[..|run| - 1];
      assert init[..i] == run[..i];
      PrefixNeverReopens(s, run);
      ClosedIsAbsorbing(s, init, i);
      RunKeepsInv(s, init);
      StepKeepsClosedIff(After(s, init), run[|run| - 1]);
    }
  }

  predicate ClosedFrom(s: System, run: seq<Action>, i: nat) {
    forall n :: i <= n <= |run| ==> IsClosed(After(s, run[..n]).row)
  }

  predicate ReopensNowhere(s: System, run: seq<Action>, i: nat) {
    forall n :: i <= n < |run| ==> !Reopens(After(s, run[..n]), run[n])
  }

  /** Exactly then: a closed row is closed at every later point of a run iff no later step reopens it. */
  lemma ClosedForGoodIff(s: System, run: seq<Action>, i: nat)
    requires Inv(s) && i <= |run| && IsClosed(After(s, run[..i]).row)
    ensures ClosedFrom(s, run, i) <==> ReopensNowhere(s, run, i)
  {
    if ReopensNowhere(s, run, i) {
      forall n | i <= n <= |run| ensures IsClosed(After(s, run[..n]).row) {
        StaysClosed(s, run, i, n);
      }
    }
    if ClosedFrom(s, run, i) {
      forall n | i <= n < |run| ensures !Reopens(After(s, run[..n]), run[n]) {
        assert IsClosed(After(s, run[..n]).row) && IsClosed(After(s, run[..n + 1]).row);
        OneMoreAction(s, run, n);
        RunKeepsInv(s, run[..n]);
        StepKeepsClosedIff(After(s, run[..n]), run[n]);
      }
    }
  }

  lemma OneMoreAction(s: System, run: seq<Action>, n: nat)
    requires n < |run|
    ensures After(s, run[..n + 1]) == Next(After(s, run[..n]), run[n])
  {
    assert run[..n + 1][..n] == run[..n];
  }

  lemma {:induction false} StaysClosed(s: System, run: seq<Action>, i: nat, n: nat)
    requires Inv(s) && i <= n <= |run| && IsClosed(After(s, run[..i]).row) && ReopensNowhere(s, run, i)
    ensures IsClosed(After(s, run[..n]).row)
    decreases n
  {
    if i < n {
      StaysClosed(s, run, i, n - 1);
      OneMoreAction(s, run, n - 1);
      RunKeepsInv(s, run[..n - 1]);
      StepKeepsClosedIff(After(s, run[..n - 1]), run[n - 1]);
    }
  }

  /** Whatever the number of replicas, a position gets at most one REST-reconciled close. */
  lemma {:induction false} AtMostOneRestClose(s: System, run: seq<Action>)
    requires Inv(s) && NeverReopens(s, run)
    ensures CountRestCloses(s, run) <= 1
    ensures CountRestCloses(s, run) == 1 || IsClosed(s.row) ==> IsClosed(After(s, run).row)
    ensures IsClosed(s.row) ==> CountRestCloses(s, run) == 0
  {
    if run != [] {
      var init, a := run[..|run| - 1], run[|run| - 1];
      PrefixNeverReopens(s, run);
      AtMostOneRestClose(s, init);
      RunKeepsInv(s, init);
      if IsClosed(After(s, init).row) {
        StepKeepsClosedIff(After(s, init), a);
      }
    }
  }

  /** The other jobs are re-checks too: none of them changes a row that it finds closed. */
  lemma JobsLeaveClosedRows(job: Job, seen: Row)
    requires Consistent(seen) && IsClosed(seen)
    ensures Written(job, seen) == seen
  {}

  const OPEN_ROW := Row(StatusOpen, Open, Unclosed)
  const CLOSED_ROW := Row(StatusClosed, Closed, Reconciled)
  const REOPENED_ROW := Row(StatusOpen, Open, Reconciled)

  /** A REST close by one process, start to commit. */
  function RestRun(p: Pid): seq<Action> {
    [Start(p, RestClose), Acquire(p), Commit(p)]
  }

  /** On a free row that is not closed a REST close by an idle process closes it and counts. */
  lemma RestRunCloses(s: System, p: Pid)
    requires s.lock.None? && PcOf(s, p).Idle? && !IsClosed(s.row)
    ensures After(s, RestRun(p)) == System(CLOSED_ROW, None, s.pcs[p := Idle])
    ensures CountRestCloses(s, RestRun(p)) == 1
  {
    var run := RestRun(p);
    assert run[..3] == run;
    StepsTo(s, run, 0, s);
    StepsTo(s, run, 1, s.(pcs := s.pcs[p := Waiting(RestClose)]));
    StepsTo(s, run, 2, System(s.row, Some(p), s.pcs[p := Holding(RestClose, s.row)]));
    StepsTo(s, run, 3, System(CLOSED_ROW, None, s.pcs[p := Idle]));
  }

  lemma {:induction false} RunsCompose(s: System, a: seq<Action>, b: seq<Action>)
    ensures After(s, a + b) == After(After(s, a), b)
    ensures CountRestCloses(s, a + b) == CountRestCloses(s, a) + CountRestCloses(After(s, a), b)
  {
    if b == [] {
      assert a + b == a;
    } else {
      RunsCompose(s, a, b[..|b| - 1]);
      assert (a + b)[..|a + b| - 1] == a + b[..|b| - 1];
    }
  }

  /** Unfolds a prefix of a concrete run by one action. */
  lemma StepsTo(s: System, run: seq<Action>, n: nat, expected: System)
    requires n <= |run|
    requires n == 0 ==> expected == s
    requires n > 0 ==> expected == Next(After(s, run[..n - 1]), run[n - 1])
    ensures After(s, run[..n]) == expected
    ensures n > 0 ==> (CountRestCloses(s, run[..n]) == CountRestCloses(s, run[..n - 1])
                       + if RestCloses(After(s, run[..n - 1]), run[n - 1]) then 1 else 0)
    ensures n == 0 ==> CountRestCloses(s, run[..n]) == 0
  {
    if n > 0 {
      assert run[..n][..n - 1] == run[..n - 1];
    }
  }

  /** The first phase of a partial reconcile by an idle process on a free, open row. */
  function PartialRun(p: Pid): seq<Action> {
    [Start(p, PartialRead), Acquire(p), Commit(p)]
  }

  lemma PartialRunDrives(s: System, p: Pid)
    requires s.lock.None? && PcOf(s, p).Idle? && Eligible(s.row)
    ensures After(s, PartialRun(p)) == System(s.row, None, s.pcs[p := Driving(s.row.state)])
    ensures CountRestCloses(s, PartialRun(p)) == 0
  {
    var run := PartialRun(p);
    assert run[..3] == run;
    StepsTo(s, run, 0, s);
    StepsTo(s, run, 1, s.(pcs := s.pcs[p := Waiting(PartialRead)]));
    StepsTo(s, run, 2, System(s.row, Some(p), s.pcs[p := Holding(PartialRead, s.row)]));
    StepsTo(s, run, 3, System(s.row, None, s.pcs[p := Driving(s.row.state)]));
  }

  lemma SingleAction(s: System, a: Action)
    ensures After(s, [a]) == Next(s, a)
    ensures CountRestCloses(s, [a]) == if RestCloses(s, a) then 1 else 0
  {
    assert [a][..0] == [];
    assert After(s, []) == s;
  }

  /** An unchecked write of an open context over a row closed by REST allows a second REST close. */
  lemma UncheckedWriteAllowsASecondClose(s: System, run: seq<Action>, a: Action, p: Pid)
    requires var closed := After(s, run);
             && closed.row == CLOSED_ROW && WritesUnchecked(closed, a) && a.context == Open
             && PcOf(closed, p).Idle? && (a.Callback? ==> a.p != p)
    ensures After(s, run + [a]).row == REOPENED_ROW
    ensures CountRestCloses(s, run + [a] + RestRun(p)) == CountRestCloses(s, run) + 1
  {
    SingleAction(After(s, run), a);
    RunsCompose(s, run, [a]);
    RestRunCloses(After(s, run + [a]), p);
    RunsCompose(s, run + [a], RestRun(p));
  }

  lemma ReadByOneClosedByAnother()
    ensures var s, run := System(OPEN_ROW, None, map[]), PartialRun(1) + RestRun(2);
            && After(s, run) == System(CLOSED_ROW, None, map[1 := Driving(Open), 2 := Idle])
            && CountRestCloses(s, run) == 1
  {
    var s := System(OPEN_ROW, None, map[]);
    PartialRunDrives(s, 1);
    RestRunCloses(After(s, PartialRun(1)), 2);
    RunsCompose(s, PartialRun(1), RestRun(2));
  }

  /**
   * The reconcile's own callback does not re-check: a row that was read open by one
   * reconciler and closed over REST by another is reopened by the first one's callback with
   * the very context it had read, and is then closed over REST a second time.
   */
  lemma DrivingReconcilerReopensARow()
    ensures var s, run := System(OPEN_ROW, None, map[]), PartialRun(1) + RestRun(2);
            && Inv(s) && PcOf(After(s, run), 1) == Driving(OPEN_ROW.state) && IsClosed(After(s, run).row)
            && !IsClosed(After(s, run + [Callback(1, OPEN_ROW.state)]).row)
            && CountRestCloses(s, run + [Callback(1, OPEN_ROW.state)] + RestRun(3)) == 2
  {
    var s, run := System(OPEN_ROW, None, map[]), PartialRun(1) + RestRun(2);
    ReadByOneClosedByAnother();
    UncheckedWriteAllowsASecondClose(s, run, Callback(1, Open), 3);
  }

  /** Every other caller of the runtime persist has the same effect. */
  lemma RuntimePersistAllowsASecondClose()
    ensures var s := System(OPEN_ROW, None, map[]);
            Inv(s) && CountRestCloses(s, RestRun(1) + [PersistRuntime(Open)] + RestRun(2)) == 2
  {
    var s := System(OPEN_ROW, None, map[]);
    RestRunCloses(s, 1);
    UncheckedWriteAllowsASecondClose(s, RestRun(1), PersistRuntime(Open), 2);
  }
}
