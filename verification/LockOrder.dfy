/**
 * The two locks around a position: its database row and its account's order queue.
 *
 * Any number of reconcilers and order-queue workers, over any number of positions and
 * accounts. A reconciler takes the row lock, drops it, works under the queue lock and takes
 * the row lock again; a worker takes the queue lock and then, one at a time, the rows it
 * writes. Every process is a program of acquires and releases; a schedule is any sequence
 * of process numbers, and a process whose lock is taken waits.
 */
module LockOrder {
  import opened Common

  datatype Lock = Queue(account: int) | RowLock(position: int)

  datatype Instr = Acquire(lock: Lock) | Release(lock: Lock)

  type Program = seq<Instr>

  /** The locks a program holds after its first `k` instructions. */
  function Held(prog: Program, k: nat): set<Lock>
    requires k <= |prog|
  {
    if k == 0 then {}
    else match prog[k - 1]
      case Acquire(l) => Held(prog, k - 1) + {l}
      case Release(l) => Held(prog, k - 1) - {l}
  }

  /** Queues come before rows. */
  function Rank(l: Lock): nat {
    if l.Queue? then 0 else 1
  }

  predicate OrderedAt(prog: Program, k: nat)
    requires k < |prog|
  {
    && (prog[k].Acquire? ==> forall h :: h in Held(prog, k) ==> Rank(h) < Rank(prog[k].lock))
    && (prog[k].Release? ==> prog[k].lock in Held(prog, k))
  }

  /** Locks are only taken in rank order, only held locks are released, and none is kept. */
  predicate Ordered(prog: Program) {
    && (forall k :: 0 <= k < |prog| ==> OrderedAt(prog, k))
    && Held(prog, |prog|) == {}
  }

  /** The partial take-profit reconciler: read, drive the queue (whose callback may write the row), persist. */
  function Reconciler(position: int, account: int, callback: bool): Program {
    [Acquire(RowLock(position)), Release(RowLock(position)), Acquire(Queue(account))]
    + (if callback then [Acquire(RowLock(position)), Release(RowLock(position))] else [])
    + [Release(Queue(account)), Acquire(RowLock(position)), Release(RowLock(position))]
  }

  function Writes(positions: seq<int>): Program {
    if positions == [] then []
    else Writes(positions[..|positions| - 1])
         + [Acquire(RowLock(positions[|positions| - 1])), Release(RowLock(positions[|positions| - 1]))]
  }

  /** An order-queue worker or a stream warm-up: the queue first, then each row it needs. */
  function Worker(account: int, positions: seq<int>): Program {
    [Acquire(Queue(account))] + Writes(positions) + [Release(Queue(account))]
  }

  lemma {:induction false} HeldOfPrefix(prog: Program, more: Program, k: nat)
    requires k <= |prog|
    ensures Held(prog + more, k) == Held(prog, k)
  {
    if k > 0 {
      HeldOfPrefix(prog, more, k - 1);
    }
  }

  /** The program respects the order so far and now holds exactly these locks. */
  predicate Holds(prog: Program, held: set<Lock>) {
    && (forall k :: 0 <= k < |prog| ==> OrderedAt(prog, k))
    && Held(prog, |prog|) == held
  }

  lemma Push(prog: Program, held: set<Lock>, i: Instr, after: set<Lock>)
    requires Holds(prog, held)
    requires i.Acquire? ==> (forall h :: h in held ==> Rank(h) < Rank(i.lock)) && after == held + {i.lock}
    requires i.Release? ==> i.lock in held && after == held - {i.lock}
    ensures Holds(prog + [i], after)
  {
    forall k | 0 <= k <= |prog| ensures OrderedAt(prog + [i], k) {
      HeldOfPrefix(prog, [i], k);
      if k < |prog| { assert OrderedAt(prog, k); }
    }
    HeldOfPrefix(prog, [i], |prog|);
  }

  /** Taking and dropping a row while holding nothing but queues changes nothing. */
  lemma PushRow(prog: Program, held: set<Lock>, position: int)
    requires Holds(prog, held) && forall h :: h in held ==> h.Queue?
    ensures Holds(prog + [Acquire(RowLock(position)), Release(RowLock(position))], held)
  {
    var row := RowLock(position);
    Push(prog, held, Acquire(row), held + {row});
    Push(prog + [Acquire(row)], held + {row}, Release(row), held);
    assert prog + [Acquire(row)] + [Release(row)] == prog + [Acquire(row), Release(row)];
  }

  lemma {:induction false} PushWrites(prog: Program, held: set<Lock>, positions: seq<int>)
    requires Holds(prog, held) && forall h :: h in held ==> h.Queue?
    ensures Holds(prog + Writes(positions), held)
  {
    if positions == [] {
      assert prog + Writes(positions) == prog;
    } else {
      var init, last := positions[..|positions| - 1], positions[|positions| - 1];
      PushWrites(prog, held, init);
      PushRow(prog + Writes(init), held, last);
      assert prog + Writes(positions) == (prog + Writes(init)) + [Acquire(RowLock(last)), Release(RowLock(last))];
    }
  }

  lemma WorkerIsOrdered(account: int, positions: seq<int>)
    ensures Ordered(Worker(account, positions))
  {
    var queue := Queue(account);
    Push([], {}, Acquire(queue), {queue});
    assert [] + [Acquire(queue)] == [Acquire(queue)];
    PushWrites([Acquire(queue)], {queue}, positions);
    Push([Acquire(queue)] + Writes(positions), {queue}, Release(queue), {});
  }

  /** The reconciler is ordered because it gives the row back before it asks for the queue. */
  lemma ReconcilerIsOrdered(position: int, account: int, callback: bool)
    ensures Ordered(Reconciler(position, account, callback))
  {
    var row, queue := RowLock(position), Queue(account);
    var a: Program := [Acquire(row), Release(row)];
    PushRow([], {}, position);
    assert [] + a == a;
    Push(a, {}, Acquire(queue), {queue});
    var b := a + [Acquire(queue)];
    var c := if callback then b + [Acquire(row), Release(row)] else b;
    if callback { PushRow(b, {queue}, position); }
    Push(c, {queue}, Release(queue), {});
    PushRow(c + [Release(queue)], {}, position);
    assert Reconciler(position, account, callback) == c + [Release(queue)] + [Acquire(row), Release(row)];
  }

  lemma OneMoreRow(prog: Program, position: int, l: Lock)
    ensures multiset(prog + [Acquire(RowLock(position)), Release(RowLock(position))])[Acquire(l)]
         == multiset(prog)[Acquire(l)] + if l == RowLock(position) then 1 else 0
  {
    var pair: Program := [Acquire(RowLock(position)), Release(RowLock(position))];
    assert multiset(prog + pair) == multiset(prog) + multiset(pair);
    assert multiset(pair) == multiset{Acquire(RowLock(position)), Release(RowLock(position))};
  }

  lemma {:induction false} WritesTakeEachRow(positions: seq<int>, l: Lock)
    ensures multiset(Writes(positions))[Acquire(l)] == if l.RowLock? then multiset(positions)[l.position] else 0
  {
    if positions != [] {
      var init, last := positions[..|positions| - 1], positions[|positions| - 1];
      WritesTakeEachRow(init, l);
      assert multiset(positions) == multiset(init) + multiset{last} by { assert positions == init + [last]; }
      OneMoreRow(Writes(init), last, l);
    }
  }

  /** A worker has the queue from its first to its last instruction and takes every row as often as it writes it. */
  lemma WorkerTakesItsLocks(account: int, positions: seq<int>, l: Lock)
    ensures var prog := Worker(account, positions);
            && prog[0] == Acquire(Queue(account)) && prog[|prog| - 1] == Release(Queue(account))
            && multiset(prog)[Acquire(l)] == (if l.RowLock? then multiset(positions)[l.position]
                                              else if l.account == account then 1 else 0)
  {
    WritesTakeEachRow(positions, l);
  }

  /** A reconciler takes its queue once and its row to read, to persist, and for a callback once more; nothing else. */
  lemma ReconcilerTakesItsLocks(position: int, account: int, callback: bool, l: Lock)
    ensures multiset(Reconciler(position, account, callback))[Acquire(l)]
         == if l == Queue(account) then 1
            else if l == RowLock(position) then (if callback then 3 else 2)
            else 0
  {
    var row, queue := RowLock(position), Queue(account);
    assert Reconciler(position, account, callback)
        == [Acquire(row), Release(row), Acquire(queue)]
           + (if callback then [Acquire(row), Release(row)] else [])
           + [Release(queue), Acquire(row), Release(row)];
  }

  // ----- The machine --------------------------------------------------------------------

  datatype System = System(progs: seq<Program>, pcs: seq<nat>, owners: map<Lock, nat>)

  predicate WellFormed(s: System) {
    && |s.progs| == |s.pcs|
    && (forall p :: 0 <= p < |s.progs| ==> s.pcs[p] <= |s.progs[p]|)
  }

  predicate IsProcess(s: System, p: nat) {
    p < |s.progs|
  }

  predicate Unfinished(s: System, p: nat)
    requires WellFormed(s)
  {
    p < |s.progs| && s.pcs[p] < |s.progs[p]|
  }

  /** The process wants a lock that somebody has. */
  predicate Blocked(s: System, p: nat)
    requires WellFormed(s)
  {
    Unfinished(s, p) && s.progs[p][s.pcs[p]].Acquire? && s.progs[p][s.pcs[p]].lock in s.owners
  }

  predicate CanStep(s: System, p: nat)
    requires WellFormed(s)
  {
    Unfinished(s, p) && !Blocked(s, p)
  }

  function Step(s: System, p: nat): System
    requires WellFormed(s)
  {
    if !CanStep(s, p) then s
    else
      var pcs := s.pcs[p := s.pcs[p] + 1];
      match s.progs[p][s.pcs[p]]
      case Acquire(l) => s.(pcs := pcs, owners := s.owners[l := p])
      case Release(l) => s.(pcs := pcs, owners := s.owners - {l})
  }

  /** Every held lock is owned by its holder and by nobody else. */
  ghost predicate Inv(s: System) {
    && WellFormed(s)
    && (forall p :: 0 <= p < |s.progs| ==> Ordered(s.progs[p]))
    && (forall p, l :: 0 <= p < |s.progs| ==> (Has(s, p, l) <==> l in s.owners && s.owners[l] == p))
    && (forall l :: l in s.owners ==> s.owners[l] < |s.progs|)
  }

  predicate Has(s: System, p: nat, l: Lock)
    requires WellFormed(s) && p < |s.progs|
  {
    l in Held(s.progs[p], s.pcs[p])
  }

  function Start(progs: seq<Program>): System {
    System(progs, seq(|progs|, p => 0), map[])
  }

  function After(s: System, schedule: seq<nat>): (r: System)
    requires WellFormed(s)
    ensures WellFormed(r) && r.progs == s.progs
  {
    if schedule == [] then s else Step(After(s, schedule[..|schedule| - 1]), schedule[|schedule| - 1])
  }

  lemma StepKeepsInv(s: System, p: nat)
    requires Inv(s)
    ensures Inv(Step(s, p))
  {
    var after := Step(s, p);
    if CanStep(s, p) {
      var i := s.progs[p][s.pcs[p]];
      assert OrderedAt(s.progs[p], s.pcs[p]);
      assert i.Release? ==> Has(s, p, i.lock);
      forall q, l | 0 <= q < |after.progs| ensures Has(after, q, l) <==> l in after.owners && after.owners[l] == q {
        assert Has(s, q, l) <==> l in s.owners && s.owners[l] == q;
        if q == p {
          var held := Held(s.progs[p], s.pcs[p]);
          assert Held(s.progs[p], s.pcs[p] + 1) == if i.Acquire? then held + {i.lock} else held - {i.lock};
        }
      }
    }
  }

  lemma {:induction false} RunKeepsInv(s: System, schedule: seq<nat>)
    requires Inv(s)
    ensures Inv(After(s, schedule))
  {
    if schedule != [] {
      RunKeepsInv(s, schedule[..|schedule| - 1]);
      StepKeepsInv(After(s, schedule[..|schedule| - 1]), schedule[|schedule| - 1]);
    }
  }

  lemma StartIsInv(progs: seq<Program>)
    requires forall p :: 0 <= p < |progs| ==> Ordered(progs[p])
    ensures Inv(Start(progs))
  {}

  function Wanted(s: System, p: nat): Lock
    requires WellFormed(s) && Blocked(s, p)
  {
    s.progs[p][s.pcs[p]].lock
  }

  /** Who a blocked process waits for is under way and, if blocked too, wants a lock of higher rank. */
  lemma OwnerIsAhead(s: System, p: nat)
    requires Inv(s) && Blocked(s, p)
    ensures var q := s.owners[Wanted(s, p)];
            Unfinished(s, q) && (Blocked(s, q) ==> Rank(Wanted(s, q)) > Rank(Wanted(s, p)))
  {
    var l := Wanted(s, p);
    var q := s.owners[l];
    assert Has(s, q, l);
    assert Ordered(s.progs[q]);
    if Blocked(s, q) {
      assert OrderedAt(s.progs[q], s.pcs[q]);
    }
  }

  /** Following the owners from an unfinished process ends at one that can run. */
  lemma {:induction false} SomebodyRuns(s: System, p: nat, inside: set<nat>) returns (q: nat)
    requires Inv(s) && Unfinished(s, p)
    requires p in inside && forall w :: w in inside && Blocked(s, w) ==> s.owners[Wanted(s, w)] in inside
    ensures CanStep(s, q) && q in inside
    decreases if Blocked(s, p) then 1 - Rank(Wanted(s, p)) + 1 else 0
  {
    if Blocked(s, p) {
      OwnerIsAhead(s, p);
      q := SomebodyRuns(s, s.owners[Wanted(s, p)], inside);
    } else {
      q := p;
    }
  }

  /** A set of processes that all wait for each other. */
  ghost predicate CircularWait(s: System, waiting: set<nat>)
    requires WellFormed(s)
  {
    waiting != {} && forall p :: p in waiting ==> Blocked(s, p) && s.owners[Wanted(s, p)] in waiting
  }

  /** No schedule of any number of reconcilers and workers reaches a circular wait. */
  lemma NoCircularWait(progs: seq<Program>, schedule: seq<nat>, waiting: set<nat>)
    requires forall p :: 0 <= p < |progs| ==> Ordered(progs[p])
    ensures !CircularWait(After(Start(progs), schedule), waiting)
  {
    StartIsInv(progs);
    RunKeepsInv(Start(progs), schedule);
    var s := After(Start(progs), schedule);
    if CircularWait(s, waiting) {
      var p :| p in waiting;
      var q := SomebodyRuns(s, p, waiting);
    }
  }

  function Left(s: System, n: nat): nat
    requires WellFormed(s) && n <= |s.progs|
  {
    if n == 0 then 0 else Left(s, n - 1) + |s.progs[n - 1]| - s.pcs[n - 1]
  }

  predicate Finished(s: System)
    requires WellFormed(s)
  {
    forall p :: 0 <= p < |s.progs| ==> s.pcs[p] == |s.progs[p]|
  }

  lemma {:induction false} StepLeavesLess(s: System, p: nat, n: nat)
    requires WellFormed(s) && CanStep(s, p) && n <= |s.progs|
    ensures Left(Step(s, p), n) == Left(s, n) - if p < n then 1 else 0
  {
    if n > 0 { StepLeavesLess(s, p, n - 1); }
  }

  /** From wherever a schedule has led, all processes can be run to their end. */
  lemma {:induction false} EverybodyCanFinish(s: System) returns (schedule: seq<nat>)
    requires Inv(s)
    ensures Finished(After(s, schedule))
    decreases Left(s, |s.progs|)
  {
    if Finished(s) {
      schedule := [];
    } else {
      var p :| 0 <= p < |s.progs| && s.pcs[p] != |s.progs[p]|;
      var all := set w | 0 <= w < |s.progs| && IsProcess(s, w);
      var q := SomebodyRuns(s, p, all);
      StepKeepsInv(s, q);
      StepLeavesLess(s, q, |s.progs|);
      var rest := EverybodyCanFinish(Step(s, q));
      schedule := [q] + rest;
      AfterFirst(s, q, rest);
    }
  }

  lemma {:induction false} AfterFirst(s: System, q: nat, rest: seq<nat>)
    requires WellFormed(s) && WellFormed(Step(s, q))
    ensures After(s, [q] + rest) == After(Step(s, q), rest)
  {
    var all := [q] + rest;
    if rest == [] {
      assert all[..0] == [];
      assert After(s, all[..0]) == s;
    } else {
      AfterFirst(s, q, rest[..|rest| - 1]);
      assert all[..|all| - 1] == [q] + rest[..|rest| - 1];
    }
  }

  datatype Party = Reconciles(position: int, account: int, callback: bool) | Works(account: int, positions: seq<int>)

  function ProgramOf(party: Party): Program {
    match party
    case Reconciles(position, account, callback) => Reconciler(position, account, callback)
    case Works(account, positions) => Worker(account, positions)
  }

  function Programs(parties: seq<Party>): seq<Program> {
    seq(|parties|, p requires 0 <= p < |parties| => ProgramOf(parties[p]))
  }

  /**
   * Whatever the mix of reconcilers and workers and however they were scheduled so far,
   * no processes wait for each other in a circle, and all of them can still finish.
   */
  lemma MixNeverDeadlocks(parties: seq<Party>, schedule: seq<nat>) returns (rest: seq<nat>)
    ensures forall waiting :: !CircularWait(After(Start(Programs(parties)), schedule), waiting)
    ensures Finished(After(After(Start(Programs(parties)), schedule), rest))
  {
    var progs := Programs(parties);
    forall p | 0 <= p < |progs| ensures Ordered(progs[p]) {
      match parties[p]
      case Reconciles(position, account, callback) => ReconcilerIsOrdered(position, account, callback);
      case Works(account, positions) => WorkerIsOrdered(account, positions);
    }
    forall waiting ensures !CircularWait(After(Start(progs), schedule), waiting) {
      NoCircularWait(progs, schedule, waiting);
    }
    StartIsInv(progs);
    RunKeepsInv(Start(progs), schedule);
    rest := EverybodyCanFinish(After(Start(progs), schedule));
  }

  // ----- Why the row is given back first ------------------------------------------------

  /** A reconciler that keeps the row while it asks for the queue. */
  function Greedy(position: int, account: int): Program {
    [Acquire(RowLock(position)), Acquire(Queue(account)), Release(Queue(account)), Release(RowLock(position))]
  }

  /** One such reconciler and one worker reach a circular wait after one step each. */
  lemma KeepingTheRowDeadlocks(position: int, account: int)
    ensures !Ordered(Greedy(position, account))
    ensures CircularWait(After(Start([Greedy(position, account), Worker(account, [position])]), [0, 1]), {0, 1})
  {
    var greedy, worker := Greedy(position, account), Worker(account, [position]);
    assert Held(greedy, 1) == {RowLock(position)};
    assert !OrderedAt(greedy, 1);
    WorkerTakesTheRow(account, position);
    var s := Start([greedy, worker]);
    assert s.pcs == [0, 0];
    var one := Step(s, 0);
    assert one == System([greedy, worker], [1, 0], map[RowLock(position) := 0]);
    assert Step(one, 1) == System([greedy, worker], [1, 1], map[RowLock(position) := 0, Queue(account) := 1]);
    AfterTwo(s, 0, 1);
  }

  lemma AfterTwo(s: System, p: nat, q: nat)
    requires WellFormed(s)
    ensures WellFormed(Step(s, p)) && After(s, [p, q]) == Step(Step(s, p), q)
  {
    var schedule := [p, q];
    assert schedule[..1] == [p] && [p][..0] == [];
    assert After(s, []) == s;
    assert After(s, [p]) == Step(s, p);
  }

  lemma WorkerTakesTheRow(account: int, position: int)
    ensures |Worker(account, [position])| == 4
    ensures Worker(account, [position])[0] == Acquire(Queue(account))
    ensures Worker(account, [position])[1] == Acquire(RowLock(position))
  {
    assert [position][..0] == [];
    assert Writes([position]) == [Acquire(RowLock(position)), Release(RowLock(position))];
  }
}
