/**
 * The retrying work queue that feeds the trading desks.
 *
 * A drain selects due rows in batches, oldest retry time first and past rows that another
 * worker has locked, gives every one an attempt at its strategy's desk and marks it
 * completed, dead, or pending again with a growing delay. The session does not flush by
 * itself, so whether the next select sees those marks is part of the model.
 */
module SignalQueue {
  import opened Common
  import Lifecycle
  import SignalDesk

  datatype Status = Queued | Processing | Done | Dead

  /** A queue row; `tries` lists the times of its attempts. */
  datatype Item = Item(config: int, profile: int, history: int, status: Status, attempt: nat, maxAttempts: nat,
                       nextRetryAt: int, tries: seq<int>)

  type Rows = map<int, Item>

  /** The queue and the desk of every strategy. */
  datatype Book = Book(rows: Rows, desks: map<int, SignalDesk.Desk>)

  /** The answers from outside during one drain, by queue row. */
  type Answers = int -> SignalDesk.Env

  /** Whether a strategy's account is a demo account. */
  type Modes = int -> bool

  datatype Stats = Stats(polled: nat, completed: nat, skipped: nat, retried: nat, dead: nat, errors: nat)

  function Begun(i: Item, now: int): Item {
    i.(status := Processing, attempt := i.attempt + 1, tries := i.tries + [now])
  }

  predicate Retries(i: Item, o: SignalDesk.Outcome) {
    o.Raised? && o.retryable && i.attempt < i.maxAttempts
  }

  function Marked(i: Item, o: SignalDesk.Outcome, now: int, interval: int): Item {
    if o.Completed? || o.Skipped? then i.(status := Done)
    else if Retries(i, o) then
      i.(status := Queued, nextRetryAt := now + interval * if i.attempt > 1 then i.attempt else 1)
    else i.(status := Dead)
  }

  /** The attempt at the desk of the row's strategy. */
  function AtDesk(b: Book, i: Item, e: SignalDesk.Env, demo: Modes): SignalDesk.Result
    requires i.config in b.desks
  {
    var report := SignalDesk.Report(i.history, i.profile);
    SignalDesk.Attempt(b.desks[i.config], report, e.(configFound := true), demo(i.config))
  }

  /** One attempt at a queue row: the outcome and the desks it leaves. */
  function Tried(b: Book, i: Item, e: SignalDesk.Env, demo: Modes): SignalDesk.Outcome {
    if i.config !in b.desks then SignalDesk.Dead else AtDesk(b, i, e, demo).outcome
  }

  function DesksAfter(b: Book, i: Item, e: SignalDesk.Env, demo: Modes): map<int, SignalDesk.Desk> {
    if i.config !in b.desks then b.desks else b.desks[i.config := AtDesk(b, i, e, demo).desk]
  }

  function Handle(b: Book, id: int, now: int, e: SignalDesk.Env, interval: int, demo: Modes): Book
    requires id in b.rows
  {
    var i := Begun(b.rows[id], now);
    Book(b.rows[id := Marked(i, Tried(b, i, e, demo), now, interval)], DesksAfter(b, i, e, demo))
  }

  /** The counters after one attempt. */
  function Tally(s: Stats, i: Item, o: SignalDesk.Outcome): Stats {
    var raised := if o.Raised? then 1 else 0;
    if o.Completed? then s.(polled := s.polled + 1, completed := s.completed + 1)
    else if o.Skipped? then s.(polled := s.polled + 1, skipped := s.skipped + 1)
    else if Retries(i, o) then s.(polled := s.polled + 1, retried := s.retried + 1, errors := s.errors + raised)
    else s.(polled := s.polled + 1, dead := s.dead + 1, errors := s.errors + raised)
  }

  predicate IsDue(i: Item, now: int) {
    i.status == Queued && i.nextRetryAt <= now
  }

  /** Rows a select returns: due, and not locked by another worker. */
  function Due(rows: Rows, locked: set<int>, now: int): set<int> {
    set id | id in rows && id !in locked && IsDue(rows[id], now)
  }

  /** The order of the select. */
  predicate Before(rows: Rows, a: int, b: int) {
    a in rows && b in rows
    && (rows[a].nextRetryAt < rows[b].nextRetryAt || (rows[a].nextRetryAt == rows[b].nextRetryAt && a < b))
  }

  predicate Sorted(rows: Rows, ids: seq<int>) {
    forall i, j :: 0 <= i < j < |ids| ==> Before(rows, ids[i], ids[j])
  }

  predicate Ahead(rows: Rows, ids: seq<int>, rest: set<int>) {
    forall i, id :: 0 <= i < |ids| && id in rest ==> Before(rows, ids[i], id)
  }

  /** The first rows of a set in select order, as many as the limit allows. */
  ghost predicate IsBatch(batch: seq<int>, rows: Rows, due: set<int>, limit: nat) {
    && Sorted(rows, batch) && (forall id :: id in batch ==> id in due)
    && Ahead(rows, batch, due - Members(batch))
    && (|batch| == limit || (|batch| < limit && due <= Members(batch)))
  }

  /** What a select of these stored rows returns, all of them rows of the session as well. */
  ghost predicate FirstBatch(batch: seq<int>, stored: Rows, keys: set<int>, locked: set<int>, now: int, limit: nat) {
    IsBatch(batch, stored, Due(stored, locked, now), limit) && forall id :: id in batch ==> id in keys
  }

  function Members(ids: seq<int>): set<int> {
    set id | id in ids
  }

  /** Handling one row after the other. */
  function HandleAll(b: Book, ids: seq<int>, now: int, answers: Answers, interval: int, demo: Modes): (r: Book)
    requires forall id :: id in ids ==> id in b.rows
    ensures r.rows.Keys == b.rows.Keys
  {
    if ids == [] then b
    else Handle(HandleAll(b, ids[..|ids| - 1], now, answers, interval, demo), ids[|ids| - 1], now,
                answers(ids[|ids| - 1]), interval, demo)
  }

  function StatsOf(b: Book, ids: seq<int>, now: int, answers: Answers, interval: int, demo: Modes): Stats
    requires forall id :: id in ids ==> id in b.rows
  {
    if ids == [] then Stats(0, 0, 0, 0, 0, 0)
    else
      var init, id := ids[..|ids| - 1], ids[|ids| - 1];
      var before := HandleAll(b, init, now, answers, interval, demo);
      var i := Begun(before.rows[id], now);
      Tally(StatsOf(b, init, now, answers, interval, demo), i, Tried(before, i, answers(id), demo))
  }

  // ----- Queueing reports ---------------------------------------------------------------

  function Fresh(config: int, profile: int, history: int, maxAttempts: nat, now: int): Item {
    Item(config, profile, history, Queued, 0, maxAttempts, now, [])
  }

  predicate FreshFor(i: Item, configs: set<int>, profile: int, history: int, maxAttempts: nat, now: int) {
    i.config in configs && i == Fresh(i.config, profile, history, maxAttempts, now)
  }

  predicate Has(rows: Rows, history: int, config: int) {
    exists id :: id in rows && rows[id].history == history && rows[id].config == config
  }

  /** The unique constraint of the table. */
  predicate PairsUnique(rows: Rows) {
    forall a, b :: a in rows && b in rows && SamePair(rows[a], rows[b]) ==> a == b
  }

  predicate SamePair(i: Item, j: Item) {
    i.history == j.history && i.config == j.config
  }

  predicate Listens(d: SignalDesk.Desk, profile: int) {
    d.config.content.profile == profile && d.config.content.enabled && d.config.running
  }

  function Listeners(desks: map<int, SignalDesk.Desk>, profile: int): set<int> {
    set c | c in desks && Listens(desks[c], profile)
  }

  /** Who is told about a report, and with what row: pending at once, not tried yet. */
  lemma WhoIsTold(desks: map<int, SignalDesk.Desk>, profile: int, history: int, maxAttempts: nat, now: int, i: Item)
    ensures FreshFor(i, Listeners(desks, profile), profile, history, maxAttempts, now)
       <==> (i.config in desks && desks[i.config].config.content.enabled && desks[i.config].config.running
             && desks[i.config].config.content.profile == profile && i.profile == profile && i.history == history
             && i.status == Queued && i.attempt == 0 && i.tries == [] && i.maxAttempts == maxAttempts
             && i.nextRetryAt == now)
  {}

  lemma OneMoreRow(was: Rows, id: int, rows: Rows, history: int, config: int, queued: bool)
    requires PairsUnique(was) && id !in was && (queued <==> !Has(was, history, config))
    requires queued ==> rows.Keys == was.Keys + {id} && rows[id].history == history && rows[id].config == config
    requires queued ==> forall x :: x in was ==> rows[x] == was[x]
    requires !queued ==> rows == was
    ensures PairsUnique(rows) && Has(rows, history, config)
    ensures forall h, c :: Has(was, h, c) ==> Has(rows, h, c)
  {
    if queued {
      assert id in rows.Keys;
      forall h, c | Has(was, h, c) ensures Has(rows, h, c) {
        var x :| x in was && was[x].history == h && was[x].config == c;
        assert x in rows.Keys;
      }
      forall a, b | a in rows && b in rows && SamePair(rows[a], rows[b])
        ensures a == b
      {
        assert a in rows.Keys && b in rows.Keys;
      }
    }
  }

  // ----- The drain ----------------------------------------------------------------------

  class Scheduler {
    const limit: nat
    const interval: int
    const maxAttempts: nat
    const visible: bool   // whether a select sees the marks of the same session
    const demo: Modes
    var rows: Rows        // the session's objects
    var stored: Rows      // what a select reads
    var desks: map<int, SignalDesk.Desk>
    var next: int

    ghost predicate Valid()
      reads this
    {
      limit >= 1 && interval > 0 && maxAttempts >= 1 && stored == rows
    }

    /** Ids come from a sequence that is ahead of the table. */
    ghost predicate Numbered()
      reads this
    {
      forall id :: id in rows ==> id < next
    }

    ghost function View(): Book
      reads this
    {
      Book(rows, desks)
    }

    constructor (limit: nat, interval: int, maxAttempts: nat, visible: bool, demo: Modes, desks: map<int,
                 SignalDesk.Desk>)
      requires limit >= 1 && interval > 0 && maxAttempts >= 1
      ensures Valid() && Numbered()
      ensures this.limit == limit && this.interval == interval && this.maxAttempts == maxAttempts
      ensures this.visible == visible && this.demo == demo && View() == Book(map[], desks)
    {
      this.limit, this.interval, this.maxAttempts := limit, interval, maxAttempts;
      this.visible, this.demo := visible, demo;
      rows, stored, next := map[], map[], 1;
      this.desks := desks;
    }

    /** Queues a report for one strategy, unless it was queued for it before. */
    method EnqueueFor(config: int, profile: int, history: int, now: int) returns (queued: bool)
      requires Valid() && Numbered()
      modifies `rows, `stored, `next
      ensures Valid() && Numbered() && next == old(next) + if queued then 1 else 0
      ensures queued <==> !Has(old(rows), history, config)
      ensures rows == if !queued then old(rows)
                      else old(rows)[old(next) := Fresh(config, profile, history, maxAttempts, now)]
    {
      if Has(rows, history, config) { return false; }
      rows := rows[next := Fresh(config, profile, history, maxAttempts, now)];
      stored, next, queued := rows, next + 1, true;
    }

    /** Queues a report for every running strategy of its profile, once. */
    method Enqueue(profile: int, history: int, now: int) returns (any: bool)
      requires Valid() && Numbered() && PairsUnique(rows)
      modifies `rows, `stored, `next
      ensures Valid() && Numbered() && PairsUnique(rows) && (any <==> rows != old(rows))
      ensures forall id :: id in old(rows) ==> id in rows && rows[id] == old(rows)[id]
      ensures forall id :: id in rows && id !in old(rows)
                ==> FreshFor(rows[id], Listeners(desks, profile), profile, history, maxAttempts, now)
      ensures forall c :: c in Listeners(desks, profile) ==> Has(rows, history, c)
    {
      any := false;
      var todo := Listeners(desks, profile);
      while todo != {}
        invariant Valid() && Numbered() && PairsUnique(rows) && (any <==> rows != old(rows))
        invariant todo <= Listeners(desks, profile)
        invariant forall id :: id in old(rows) ==> id in rows && rows[id] == old(rows)[id]
        invariant forall id :: id in rows && id !in old(rows)
                    ==> FreshFor(rows[id], Listeners(desks, profile), profile, history, maxAttempts, now)
        invariant forall c :: c in Listeners(desks, profile) - todo ==> Has(rows, history, c)
        decreases |todo|
      {
        SomeMember(todo);
        var c :| c in todo;
        ghost var was, id := rows, next;
        var queued := EnqueueFor(c, profile, history, now);
        OneMoreRow(was, id, rows, history, c, queued);
        todo, any := todo - {c}, any || queued;
      }
    }

    /** The least row of a set in select order. */
    method First(ids: set<int>) returns (first: int)
      requires ids != {} && ids <= stored.Keys
      ensures first in ids && forall id :: id in ids - {first} ==> Before(stored, first, id)
    {
      SomeMember(ids);
      first :| first in ids;
      var todo := ids - {first};
      assert ids - todo == {first};
      while todo != {}
        invariant todo <= ids && first in ids - todo
        invariant forall id :: id in ids - todo - {first} ==> Before(stored, first, id)
        decreases |todo|
      {
        SomeMember(todo);
        var id :| id in todo;
        assert ids - (todo - {id}) == (ids - todo) + {id};
        ghost var seen, was := ids - todo, first;
        todo := todo - {id};
        if Before(stored, id, first) { first := id; }
        forall x | x in ids - todo - {first} ensures Before(stored, first, x) {
          assert x == id || x == was || x in seen - {was};
        }
      }
      assert ids - todo == ids;
    }

    /** The next batch, read from what the database shows. */
    method Select(locked: set<int>, now: int) returns (batch: seq<int>)
      ensures IsBatch(batch, stored, Due(stored, locked, now), limit)
    {
      var due := Due(stored, locked, now);
      var rest := due;
      batch := [];
      while |batch| < limit && rest != {}
        invariant |batch| <= limit && rest == due - Members(batch) && forall id :: id in batch ==> id in due
        invariant Sorted(stored, batch) && Ahead(stored, batch, rest)
        decreases limit - |batch|
      {
        var id := First(rest);
        assert Members(batch + [id]) == Members(batch) + {id};
        assert rest - {id} == due - Members(batch + [id]);
        batch, rest := batch + [id], rest - {id};
      }
      if rest == {} {
        forall id | id in due ensures id in Members(batch) {
          assert id !in rest;
        }
      }
    }

    /** One attempt at one row. */
    method HandleItem(id: int, now: int, e: SignalDesk.Env) returns (outcome: SignalDesk.Outcome)
      requires id in rows
      modifies `rows, `desks
      ensures View() == Handle(old(View()), id, now, e, interval, demo)
      ensures outcome == Tried(old(View()), Begun(old(rows)[id], now), e, demo)
    {
      var item := rows[id];
      item := item.(status := Processing, attempt := item.attempt + 1, tries := item.tries + [now]);
      if item.config !in desks {
        outcome := SignalDesk.Dead;
      } else {
        var r := SignalDesk.Attempt(desks[item.config], SignalDesk.Report(item.history, item.profile),
                                    e.(configFound := true), demo(item.config));
        desks, outcome := desks[item.config := r.desk], r.outcome;
      }
      match outcome {
        case Completed => item := item.(status := Done);
        case Skipped => item := item.(status := Done);
        case Dead => item := item.(status := Dead);
        case Raised(retryable) =>
          if retryable && item.attempt < item.maxAttempts {
            var delay := interval * if item.attempt > 1 then item.attempt else 1;
            item := item.(status := Queued, nextRetryAt := now + delay);
          } else {
            item := item.(status := Dead);
          }
      }
      rows := rows[id := item];
    }

    /** The inner loop of the drain: every row of a batch gets its attempt, in order. */
    method HandleBatch(batch: seq<int>, locked: set<int>, now: int, answers: Answers, before: Stats, done: seq<int>,
                       ghost seen: Book)
      returns (stats: Stats, handled: seq<int>)
      requires interval > 0 && visible && stored == rows
      requires IsBatch(batch, rows, Due(rows, locked, now), limit) && InStep(seen, done, before, now, answers)
      modifies `rows, `stored, `desks
      ensures stored == rows && InStep(seen, handled, stats, now, answers)
      ensures Due(rows, locked, now) == Due(old(rows), locked, now) - Members(batch)
      ensures InProgress(seen.rows, old(rows), done, locked, now) ==> InProgress(seen.rows, rows, handled, locked, now)
    {
      stats, handled := before, done;
      ghost var due := Due(rows, locked, now);
      ghost var inOrder := InProgress(seen.rows, rows, done, locked, now);
      for k := 0 to |batch|
        invariant stored == rows && InStep(seen, handled, stats, now, answers)
        invariant Due(rows, locked, now) == due - Members(batch[..k])
        invariant inOrder ==> InProgress(seen.rows, rows, handled, locked, now)
      {
        var id := batch[k];
        BatchStep(seen, old(rows), View(), handled, batch, k, due, limit, locked, now, answers, interval, demo);
        if inOrder {
          OrderStep(seen, old(rows), View(), handled, batch, k, due, limit, locked, now, answers, interval, demo);
        }
        var begun := Begun(rows[id], now);
        var outcome := HandleItem(id, now, answers(id));
        if visible { stored := rows; }
        stats := Tally(stats, begun, outcome);
        handled := handled + [id];
      }
      assert batch[..|batch|] == batch;
    }

    /** The queue, the desks and the counters are those of one pass over the rows handled so far, as they were seen. */
    ghost predicate InStep(seen: Book, handled: seq<int>, stats: Stats, now: int, answers: Answers)
      reads this
    {
      && Tracks(seen.rows, rows, handled, now)
      && View() == HandleAll(seen, handled, now, answers, interval, demo)
      && stats == StatsOf(seen, handled, now, answers, interval, demo)
    }

    /** What other sessions committed becomes visible, except on rows that this drain holds. */
    method OthersCommit(m: Moment, handled: seq<int>, stats: Stats, now: int, answers: Answers, ghost seen: Book)
      returns (ghost wider: Rows)
      requires Valid() && InStep(seen, handled, stats, now, answers)
      modifies `rows, `stored
      ensures Valid() && wider == seen.rows + (m.written - Members(handled))
      ensures InStep(Book(wider, seen.desks), handled, stats, now, answers)
    {
      OthersWrite(seen, rows, handled, m.written - Members(handled), now, answers, interval, demo);
      rows := rows + (m.written - Members(handled));
      stored := rows;
      wider := seen.rows + (m.written - Members(handled));
    }

    /** One round of the drain: a select and its batch. */
    method Round(locked: set<int>, now: int, answers: Answers, before: Stats, done: seq<int>, ghost seen: Book)
      returns (stats: Stats, handled: seq<int>, more: bool)
      requires Valid() && visible && InStep(seen, done, before, now, answers)
      modifies `rows, `stored, `desks
      ensures Valid() && InStep(seen, handled, stats, now, answers)
      ensures more ==> |Due(rows, locked, now)| < |Due(old(rows), locked, now)|
      ensures !more ==> Due(rows, locked, now) == {}
      ensures InProgress(seen.rows, old(rows), done, locked, now) ==> InProgress(seen.rows, rows, handled, locked, now)
    {
      var batch := Select(locked, now);
      stats, handled := HandleBatch(batch, locked, now, answers, before, done, seen);
      more := batch != [] && |batch| == limit;
      if more {
        Shrinks(Due(old(rows), locked, now), batch);
      } else {
        NoneBehind(Due(old(rows), locked, now), batch);
      }
    }

    /** A batch whose marks stay in the session: what a select reads is not touched. */
    method HandleUnseen(batch: seq<int>, now: int, answers: Answers)
      requires !visible && forall id :: id in batch ==> id in rows
      modifies `rows, `desks
      ensures rows.Keys == old(rows).Keys
      ensures View() == HandleAll(old(View()), batch, now, answers, interval, demo)
    {
      for k := 0 to |batch|
        invariant rows.Keys == old(rows).Keys
        invariant View() == HandleAll(old(View()), batch[..k], now, answers, interval, demo)
      {
        assert batch[..k + 1][..k] == batch[..k];
        assert batch[k] in batch;
        var _ := HandleItem(batch[k], now, answers(batch[k]));
      }
      assert batch[..|batch|] == batch;
    }

    /** One round of a drain whose marks are not visible: the select returns the same batch as ever. */
    method RoundUnseen(ghost batch: seq<int>, n: nat, locked: set<int>, now: int, answers: nat -> Answers,
                       ghost start: Book)
      returns (ended: bool)
      requires limit >= 1 && !visible && rows.Keys == start.rows.Keys
      requires FirstBatch(batch, stored, start.rows.Keys, locked, now, limit)
      requires View() == Unseen(start, batch, n, now, answers, interval, demo)
      modifies `rows, `desks
      ensures rows.Keys == start.rows.Keys && (ended <==> |batch| < limit)
      ensures View() == Unseen(start, batch, n + 1, now, answers, interval, demo)
    {
      var polled := Select(locked, now);
      SameBatch(polled, batch, stored, Due(stored, locked, now), limit);
      OneMoreRound(start, View(), batch, n, now, answers, interval, demo);
      HandleUnseen(polled, now, answers(n));
      ended := polled == [] || |polled| < limit;
    }

    /**
     * The loop of the drain when its marks are not visible to its selects, for a number of
     * rounds. It has ended by then if and only if fewer rows are due than a batch holds;
     * otherwise every round has polled the first batch again and the next one will.
     */
    method DrainUnseen(rounds: nat, locked: set<int>, now: int, answers: nat -> Answers)
      returns (batch: seq<int>, done: nat, ended: bool)
      requires limit >= 1 && !visible && rounds >= 1 && stored.Keys <= rows.Keys
      modifies `rows, `desks
      ensures FirstBatch(batch, stored, old(rows).Keys, locked, now, limit)
      ensures ended <==> |Due(stored, locked, now)| < limit
      ensures done == if ended then 1 else rounds
      ensures View() == Unseen(old(View()), batch, done, now, answers, interval, demo)
    {
      batch := FirstPoll(locked, now);
      done, ended := UnseenRounds(rounds, batch, locked, now, answers);
    }

    /** The rounds of such a drain, all over its first batch. */
    method UnseenRounds(rounds: nat, ghost batch: seq<int>, locked: set<int>, now: int, answers: nat -> Answers)
      returns (done: nat, ended: bool)
      requires limit >= 1 && !visible && rounds >= 1 && FirstBatch(batch, stored, rows.Keys, locked, now, limit)
      modifies `rows, `desks
      ensures ended <==> |batch| < limit
      ensures done == if ended then 1 else rounds
      ensures View() == Unseen(old(View()), batch, done, now, answers, interval, demo)
    {
      done, ended := 0, false;
      ghost var start := View();
      while !ended && done < rounds
        invariant 0 <= done <= rounds && rows.Keys == start.rows.Keys
        invariant ended <==> done >= 1 && |batch| < limit
        invariant ended ==> done == 1
        invariant View() == Unseen(start, batch, done, now, answers, interval, demo)
        decreases rounds - done, !ended
      {
        ended := RoundUnseen(batch, done, locked, now, answers, start);
        done := done + 1;
      }
    }

    method FirstPoll(locked: set<int>, now: int) returns (batch: seq<int>)
      requires stored.Keys <= rows.Keys
      ensures FirstBatch(batch, stored, rows.Keys, locked, now, limit)
      ensures |batch| < limit <==> |Due(stored, locked, now)| < limit
    {
      batch := Select(locked, now);
      BatchSize(batch, stored, Due(stored, locked, now), limit);
      forall id | id in batch ensures id in rows.Keys {
        assert id in stored.Keys;
      }
    }

    /** What others did by now, then one round. After the last moment given, nobody else acts. */
    method NextRound(around: seq<Moment>, round: nat, locked: set<int>, now: int, answers: Answers, before: Stats,
                     done: seq<int>, ghost was: Book, ghost start: Rows)
      returns (stats: Stats, handled: seq<int>, held: set<int>, more: bool, ghost seen: Rows)
      requires Valid() && visible && InStep(was, done, before, now, answers)
      requires SeenFrom(was.rows, start, around)
      modifies `rows, `stored, `desks
      ensures Valid() && InStep(Book(seen, was.desks), handled, stats, now, answers)
      ensures SeenFrom(seen, start, around)
      ensures (held == locked || HeldAtSome(around, held)) && (!more ==> Due(rows, held, now) == {})
      ensures round >= |around| ==> held == locked
      ensures round >= |around| && more ==> |Due(rows, locked, now)| < |Due(old(rows), locked, now)|
      ensures Alone(around, start, was.rows, old(rows), done, locked, now)
              ==> Alone(around, start, seen, rows, handled, locked, now)
    {
      held, seen := locked, was.rows;
      if round < |around| {
        var m := around[round];
        SeenGrows(was.rows, start, around, round, done);
        seen := OthersCommit(m, done, before, now, answers, was);
        held := m.locked;
      }
      stats, handled, more := Round(held, now, answers, before, done, Book(seen, was.desks));
    }

    /** The loop of the drain. */
    method Rounds(around: seq<Moment>, locked: set<int>, now: int, answers: Answers)
      returns (stats: Stats, handled: seq<int>, held: set<int>, ghost seen: Rows)
      requires Valid() && visible
      modifies `rows, `stored, `desks
      ensures Valid() && InStep(Book(seen, old(desks)), handled, stats, now, answers)
      ensures SeenFrom(seen, old(rows), around)
      ensures Alone(around, old(rows), seen, rows, handled, locked, now)
      ensures (held == locked || HeldAtSome(around, held)) && (around == [] ==> held == locked)
      ensures Due(rows, held, now) == {}
    {
      stats, handled, held, seen := Stats(0, 0, 0, 0, 0, 0), [], locked, rows;
      var round, more := 0, true;
      NothingHandledYet(View(), locked, now, answers, interval, demo);
      while more
        invariant 0 <= round && Valid()
        invariant InStep(Book(seen, old(desks)), handled, stats, now, answers) && SeenFrom(seen, old(rows), around)
        invariant Alone(around, old(rows), seen, rows, handled, locked, now)
        invariant (held == locked || HeldAtSome(around, held)) && (around == [] ==> held == locked)
        invariant more || Due(rows, held, now) == {}
        decreases if round < |around| then |around| - round else 0, |Due(rows, locked, now)|, more
      {
        stats, handled, held, more, seen :=
          NextRound(around, round, locked, now, answers, stats, handled, Book(seen, old(desks)), old(rows));
        round := round + 1;
      }
    }

    /**
     * Handles every row that is due and unlocked, once. Other sessions may hold different
     * rows at every select and may write rows in between; the result is still that of one
     * pass over the handled rows as they were when they were selected. If nobody else acts,
     * those are the rows that were due at the start, in select order: the batches do not show.
     */
    method Drain(around: seq<Moment>, locked: set<int>, now: int, answers: Answers)
      returns (stats: Stats, handled: seq<int>, held: set<int>, ghost seen: Rows)
      requires Valid() && visible
      modifies `rows, `stored, `desks
      ensures Valid() && Distinct(handled) && (forall id :: id in handled ==> id in seen && IsDue(seen[id], now))
      ensures View() == HandleAll(Book(seen, old(desks)), handled, now, answers, interval, demo)
      ensures stats == StatsOf(Book(seen, old(desks)), handled, now, answers, interval, demo)
      ensures SeenFrom(seen, old(rows), around)
      ensures (held == locked || HeldAtSome(around, held)) && Due(rows, held, now) == {}
      ensures around == [] ==> held == locked && seen == old(rows) && Sorted(old(rows), handled)
      ensures around == [] ==> Members(handled) == Due(old(rows), locked, now)
    {
      stats, handled, held, seen := Rounds(around, locked, now, answers);
      if around == [] {
        NothingLeft(old(rows), rows, handled, locked, now);
      }
    }
  }

  lemma NothingHandledYet(b: Book, locked: set<int>, now: int, answers: Answers, interval: int, demo: Modes)
    ensures Tracks(b.rows, b.rows, [], now) && InProgress(b.rows, b.rows, [], locked, now)
    ensures b == HandleAll(b, [], now, answers, interval, demo)
    ensures StatsOf(b, [], now, answers, interval, demo) == Stats(0, 0, 0, 0, 0, 0)
  {
    assert Due(b.rows, locked, now) == Due(b.rows, locked, now) - Members([]);
  }

  /** If nobody else acts, the drain works through what was due at the start, in select order. */
  ghost predicate Alone(around: seq<Moment>, start: Rows, seen: Rows, rows: Rows, handled: seq<int>, locked: set<int>,
                        now: int) {
    around == [] ==> seen == start && InProgress(start, rows, handled, locked, now)
  }

  // ----- Other sessions -----------------------------------------------------------------

  /** The surroundings of one select: the rows others hold, and the rows they wrote since the last one. */
  datatype Moment = Moment(locked: set<int>, written: Rows)

  predicate HeldAtSome(around: seq<Moment>, locked: set<int>) {
    exists r :: 0 <= r < |around| && around[r].locked == locked
  }

  /** A row as this session saw it: as it was at the start, or as another session wrote it. */
  predicate WasSeen(id: int, i: Item, start: Rows, around: seq<Moment>) {
    || (id in start && i == start[id])
    || exists r :: 0 <= r < |around| && id in around[r].written && i == around[r].written[id]
  }

  predicate SeenFrom(seen: Rows, start: Rows, around: seq<Moment>) {
    start.Keys <= seen.Keys && forall id :: id in seen ==> WasSeen(id, seen[id], start, around)
  }

  lemma SeenGrows(seen: Rows, start: Rows, around: seq<Moment>, r: nat, handled: seq<int>)
    requires r < |around| && SeenFrom(seen, start, around)
    ensures SeenFrom(seen + (around[r].written - Members(handled)), start, around)
  {
    var w := around[r].written - Members(handled);
    forall id | id in seen + w ensures WasSeen(id, (seen + w)[id], start, around) {
      if id in w {
        assert id in around[r].written && w[id] == around[r].written[id];
      } else {
        assert WasSeen(id, seen[id], start, around);
      }
    }
  }

  /** Handled rows were due when seen and are not due now; all others are as they were seen. */
  ghost predicate Tracks(seen: Rows, rows: Rows, handled: seq<int>, now: int) {
    && rows.Keys == seen.Keys && Distinct(handled)
    && (forall id :: id in handled ==> id in seen && id in rows && IsDue(seen[id], now) && !IsDue(rows[id], now))
    && (forall id :: id in seen && id !in handled ==> rows[id] == seen[id])
  }

  /** Writes to rows that were not handled commute with the handling of the others. */
  lemma {:induction false} OthersCommute(b: Book, ids: seq<int>, w: Rows, now: int, answers: Answers, interval: int,
                                         demo: Modes)
    requires forall id :: id in ids ==> id in b.rows && id !in w
    ensures var wide, after := Book(b.rows + w, b.desks), HandleAll(b, ids, now, answers, interval, demo);
            && HandleAll(wide, ids, now, answers, interval, demo) == Book(after.rows + w, after.desks)
            && StatsOf(wide, ids, now, answers, interval, demo) == StatsOf(b, ids, now, answers, interval, demo)
  {
    if ids != [] {
      var init, id := ids[..|ids| - 1], ids[|ids| - 1];
      OthersCommute(b, init, w, now, answers, interval, demo);
      var x := HandleAll(b, init, now, answers, interval, demo);
      assert (x.rows + w)[id] == x.rows[id];
      HandleWide(x, id, w, now, answers(id), interval, demo);
    }
  }

  lemma HandleWide(b: Book, id: int, w: Rows, now: int, e: SignalDesk.Env, interval: int, demo: Modes)
    requires id in b.rows && id !in w
    ensures Handle(Book(b.rows + w, b.desks), id, now, e, interval, demo)
         == Book(Handle(b, id, now, e, interval, demo).rows + w, Handle(b, id, now, e, interval, demo).desks)
  {
    var i := b.rows[id];
    assert (b.rows + w)[id] == i;
  }

  lemma OthersWrite(seen: Book, rows: Rows, handled: seq<int>, w: Rows, now: int, answers: Answers, interval: int,
                    demo: Modes)
    requires Tracks(seen.rows, rows, handled, now) && forall id :: id in w ==> id !in handled
    requires rows == HandleAll(seen, handled, now, answers, interval, demo).rows
    ensures var wide, after := Book(seen.rows + w, seen.desks), HandleAll(seen, handled, now, answers, interval, demo);
            && Tracks(wide.rows, rows + w, handled, now)
            && HandleAll(wide, handled, now, answers, interval, demo) == Book(rows + w, after.desks)
            && StatsOf(wide, handled, now, answers, interval, demo)
               == StatsOf(seen, handled, now, answers, interval, demo)
  {
    OthersCommute(seen, handled, w, now, answers, interval, demo);
    assert (rows + w).Keys == (seen.rows + w).Keys;
  }

  // ----- One row further ----------------------------------------------------------------

  /** Part of the way through a drain: what was handled came first, the rest is untouched. */
  ghost predicate InProgress(start: Rows, rows: Rows, handled: seq<int>, locked: set<int>, now: int) {
    && Sorted(start, handled) && (forall id :: id in handled ==> id in Due(start, locked, now))
    && Due(rows, locked, now) == Due(start, locked, now) - Members(handled)
    && Ahead(start, handled, Due(rows, locked, now))
    && (forall id :: id in Due(rows, locked, now) ==> id in start && rows[id] == start[id])
  }

  /** With a positive interval a handled row is not due again at the same time. */
  lemma NotDueAgain(i: Item, o: SignalDesk.Outcome, now: int, interval: int)
    requires interval > 0
    ensures !IsDue(Marked(i, o, now, interval), now)
  {
    if Retries(i, o) && i.attempt > 1 {
      assert interval * i.attempt >= interval;
    }
  }

  lemma NextOfBatch(start: Rows, was: Rows, rows: Rows, handled: seq<int>, batch: seq<int>, k: nat, due: set<int>,
                    limit: nat, locked: set<int>, now: int)
    requires k < |batch| && due == Due(was, locked, now) && IsBatch(batch, was, due, limit)
    requires InProgress(start, rows, handled, locked, now) && Due(rows, locked, now) == due - Members(batch[..k])
    requires forall id :: id in due ==> id in start && was[id] == start[id]
    ensures batch[k] in Due(rows, locked, now)
    ensures forall id :: id in Due(rows, locked, now) && id != batch[k] ==> Before(start, batch[k], id)
  {
    var x := batch[k];
    StillDue(was, rows, batch, k, due, limit, locked, now);
    forall j | 0 <= j < k ensures batch[j] in Members(batch[..k]) {
      assert batch[..k][j] == batch[j];
    }
    forall id | id in Due(rows, locked, now) && id != x ensures Before(start, x, id) {
      if id in batch {
        var j :| 0 <= j < |batch| && batch[j] == id;
        assert Before(was, batch[k], batch[j]);
      } else {
        assert id in due - Members(batch);
        assert Before(was, x, id);
      }
    }
  }

  lemma DueWithout(rows: Rows, id: int, after: Rows, locked: set<int>, now: int)
    requires id in rows && after.Keys == rows.Keys && !IsDue(after[id], now)
    requires forall other :: other in rows && other != id ==> after[other] == rows[other]
    ensures Due(after, locked, now) == Due(rows, locked, now) - {id}
  {
    forall x | x in Due(after, locked, now) ensures x in Due(rows, locked, now) - {id} {
      assert x in after.Keys && after[x] == rows[x];
    }
    forall x | x in Due(rows, locked, now) - {id} ensures x in Due(after, locked, now) {
      assert x in after.Keys && after[x] == rows[x];
    }
  }

  lemma OneMore(start: Rows, rows: Rows, handled: seq<int>, id: int, after: Rows, locked: set<int>, now: int)
    requires InProgress(start, rows, handled, locked, now) && id in Due(rows, locked, now)
    requires forall other :: other in Due(rows, locked, now) && other != id ==> Before(start, id, other)
    requires after.Keys == rows.Keys && !IsDue(after[id], now)
    requires forall other :: other in rows && other != id ==> after[other] == rows[other]
    ensures InProgress(start, after, handled + [id], locked, now)
    ensures Due(after, locked, now) == Due(rows, locked, now) - {id}
  {
    DueWithout(rows, id, after, locked, now);
    assert Members(handled + [id]) == Members(handled) + {id};
    assert Ahead(start, handled + [id], Due(after, locked, now));
  }

  lemma AppendOne(b: Book, ids: seq<int>, id: int, now: int, answers: Answers, interval: int, demo: Modes)
    requires id in b.rows && forall x :: x in ids ==> x in b.rows
    ensures var before := HandleAll(b, ids, now, answers, interval, demo);
            && HandleAll(b, ids + [id], now, answers, interval, demo)
               == Handle(before, id, now, answers(id), interval, demo)
            && StatsOf(b, ids + [id], now, answers, interval, demo)
               == Tally(StatsOf(b, ids, now, answers, interval, demo), Begun(before.rows[id], now),
                        Tried(before, Begun(before.rows[id], now), answers(id), demo))
  {
    assert (ids + [id])[..|ids|] == ids;
  }

  /** The next row of a batch is still due when its turn comes. */
  lemma StillDue(was: Rows, rows: Rows, batch: seq<int>, k: nat, due: set<int>, limit: nat, locked: set<int>, now: int)
    requires k < |batch| && due == Due(was, locked, now) && IsBatch(batch, was, due, limit)
    requires Due(rows, locked, now) == due - Members(batch[..k])
    ensures batch[k] in Due(rows, locked, now)
  {
    var x := batch[k];
    assert x in batch;
    forall j | 0 <= j < k ensures batch[j] != x {
      assert Before(was, batch[j], batch[k]);
    }
    assert x !in Members(batch[..k]);
  }

  lemma TracksOneMore(seen: Rows, rows: Rows, handled: seq<int>, id: int, after: Rows, now: int)
    requires Tracks(seen, rows, handled, now) && id in rows && IsDue(rows[id], now)
    requires after.Keys == rows.Keys && !IsDue(after[id], now)
    requires forall other :: other in rows && other != id ==> after[other] == rows[other]
    ensures Tracks(seen, after, handled + [id], now)
  {
    assert id !in handled;
    forall x | x in handled + [id] ensures x in seen && x in after && IsDue(seen[x], now) && !IsDue(after[x], now) {
      if x != id { assert x in handled; }
    }
  }

  /** Handling the next row of a batch takes the drain one row further. */
  lemma BatchStep(seen: Book, was: Rows, b: Book, handled: seq<int>, batch: seq<int>, k: nat, due: set<int>, limit: nat,
                  locked: set<int>, now: int, answers: Answers, interval: int, demo: Modes)
    requires interval > 0 && k < |batch| && due == Due(was, locked, now) && IsBatch(batch, was, due, limit)
    requires Tracks(seen.rows, b.rows, handled, now) && Due(b.rows, locked, now) == due - Members(batch[..k])
    requires b == HandleAll(seen, handled, now, answers, interval, demo)
    ensures batch[k] in b.rows && batch[k] in seen.rows
    ensures var after := Handle(b, batch[k], now, answers(batch[k]), interval, demo);
            Tracks(seen.rows, after.rows, handled + [batch[k]], now)
            && Due(after.rows, locked, now) == due - Members(batch[..k + 1])
            && after == HandleAll(seen, handled + [batch[k]], now, answers, interval, demo)
            && StatsOf(seen, handled + [batch[k]], now, answers, interval, demo)
               == Tally(StatsOf(seen, handled, now, answers, interval, demo), Begun(b.rows[batch[k]], now),
                        Tried(b, Begun(b.rows[batch[k]], now), answers(batch[k]), demo))
  {
    var id := batch[k];
    StillDue(was, b.rows, batch, k, due, limit, locked, now);
    var begun := Begun(b.rows[id], now);
    NotDueAgain(begun, Tried(b, begun, answers(id), demo), now, interval);
    var after := Handle(b, id, now, answers(id), interval, demo);
    TracksOneMore(seen.rows, b.rows, handled, id, after.rows, now);
    DueWithout(b.rows, id, after.rows, locked, now);
    AppendOne(seen, handled, id, now, answers, interval, demo);
    assert Members(batch[..k + 1]) == Members(batch[..k]) + {id};
  }

  /** If the drain is in select order so far, the next row of a batch keeps it so. */
  lemma OrderStep(start: Book, was: Rows, b: Book, handled: seq<int>, batch: seq<int>, k: nat, due: set<int>,
                  limit: nat,
                  locked: set<int>, now: int, answers: Answers, interval: int, demo: Modes)
    requires interval > 0 && k < |batch| && due == Due(was, locked, now) && IsBatch(batch, was, due, limit)
    requires InProgress(start.rows, b.rows, handled, locked, now)
    requires Due(b.rows, locked, now) == due - Members(batch[..k])
    requires forall id :: id in due ==> id in start.rows && was[id] == start.rows[id]
    ensures batch[k] in b.rows
    ensures var after := Handle(b, batch[k], now, answers(batch[k]), interval, demo).rows;
            InProgress(start.rows, after, handled + [batch[k]], locked, now)
  {
    var id := batch[k];
    NextOfBatch(start.rows, was, b.rows, handled, batch, k, due, limit, locked, now);
    var begun := Begun(b.rows[id], now);
    NotDueAgain(begun, Tried(b, begun, answers(id), demo), now, interval);
    OneMore(start.rows, b.rows, handled, id, Handle(b, id, now, answers(id), interval, demo).rows, locked, now);
  }

  lemma Shrinks(due: set<int>, batch: seq<int>)
    requires batch != [] && forall id :: id in batch ==> id in due
    ensures |due - Members(batch)| < |due|
  {
    var first := batch[0];
    assert first in batch;
    assert first in due;
    SubsetSize(due - Members(batch), due - {first});
  }

  /** A batch below the limit leaves nothing. */
  lemma NoneBehind(due: set<int>, batch: seq<int>)
    requires due <= Members(batch)
    ensures due - Members(batch) == {}
  {}

  lemma NothingLeft(start: Rows, rows: Rows, handled: seq<int>, locked: set<int>, now: int)
    requires InProgress(start, rows, handled, locked, now) && Due(rows, locked, now) == {}
    ensures Members(handled) == Due(start, locked, now)
  {
    forall id | id in Due(start, locked, now) ensures id in Members(handled) {
      assert id !in Due(rows, locked, now);
    }
    forall id | id in Members(handled) ensures id in Due(start, locked, now) {
      assert id in handled;
    }
  }

  // ----- What the desk's answer does to a row -------------------------------------------

  /**
   * The row is marked as the answer deserves: a raise that may be repeated puts it back with
   * a delay that grows with the attempts, while there are attempts left; any other raise and
   * a dead report end it; everything else is done.
   */
  predicate Honours(was: Item, row: Item, o: SignalDesk.Outcome, now: int, interval: int) {
    && (row.status == Queued <==> o == SignalDesk.Raised(true) && was.attempt + 1 < was.maxAttempts)
    && (row.status == Done <==> o == SignalDesk.Completed || o == SignalDesk.Skipped)
    && (row.status == Dead
        <==> (o == SignalDesk.Dead || o == SignalDesk.Raised(false)
              || (o == SignalDesk.Raised(true) && was.attempt + 1 >= was.maxAttempts)))
    && row.nextRetryAt == (if row.status == Queued then now + interval * (was.attempt + 1) else was.nextRetryAt)
    && row.attempt == was.attempt + 1 && row.tries == was.tries + [now] && row.maxAttempts == was.maxAttempts
    && row.config == was.config && row.profile == was.profile && row.history == was.history
  }

  /** One attempt asks the desk of the row's strategy about the row's report and honours what it says. */
  lemma AttemptHonoursTheAnswer(b: Book, id: int, now: int, e: SignalDesk.Env, interval: int, demo: Modes)
    requires id in b.rows
    ensures var was, after := b.rows[id], Handle(b, id, now, e, interval, demo);
            && after.rows.Keys == b.rows.Keys && after.desks.Keys == b.desks.Keys
            && (forall x :: x in b.rows && x != id ==> after.rows[x] == b.rows[x])
            && (forall c :: c in b.desks && c != was.config ==> after.desks[c] == b.desks[c])
            && if was.config in b.desks then
                 var report := SignalDesk.Report(was.history, was.profile);
                 var r := SignalDesk.Attempt(b.desks[was.config], report, e.(configFound := true), demo(was.config));
                 after.desks[was.config] == r.desk && Honours(was, after.rows[id], r.outcome, now, interval)
               else Honours(was, after.rows[id], SignalDesk.Dead, now, interval)
  {}

  lemma OnlyThatRow(b: Book, id: int, now: int, e: SignalDesk.Env, interval: int, demo: Modes)
    requires id in b.rows
    ensures var rows := Handle(b, id, now, e, interval, demo).rows;
            && rows.Keys == b.rows.Keys && (forall x :: x in b.rows && x != id ==> rows[x] == b.rows[x])
            && Honours(b.rows[id], rows[id], Tried(b, b.rows[id], e, demo), now, interval)
  {
    AttemptHonoursTheAnswer(b, id, now, e, interval, demo);
  }

  /** What the desks answered to the attempts of a pass, in order. */
  function Outcomes(b: Book, ids: seq<int>, now: int, answers: Answers, interval: int,
                    demo: Modes): (os: seq<SignalDesk.Outcome>)
    requires forall id :: id in ids ==> id in b.rows
    ensures |os| == |ids|
  {
    if ids == [] then []
    else
      var init, id := ids[..|ids| - 1], ids[|ids| - 1];
      var before := HandleAll(b, init, now, answers, interval, demo);
      Outcomes(b, init, now, answers, interval, demo) + [Tried(before, before.rows[id], answers(id), demo)]
  }

  /** The counters count the answers: which of them were completed, skipped, or raised. */
  predicate Counts(s: Stats, os: multiset<SignalDesk.Outcome>) {
    var raised := os[SignalDesk.Raised(true)] + os[SignalDesk.Raised(false)];
    && s.polled == |os| && s.completed == os[SignalDesk.Completed] && s.skipped == os[SignalDesk.Skipped]
    && s.errors == raised && s.retried + s.dead == os[SignalDesk.Dead] + raised
    && s.retried <= os[SignalDesk.Raised(true)]
  }

  lemma TallyCounts(s: Stats, os: multiset<SignalDesk.Outcome>, i: Item, o: SignalDesk.Outcome)
    requires Counts(s, os)
    ensures Counts(Tally(s, i, o), os + multiset{o})
  {}

  /** Over a whole pass every row is marked as the answer to its own attempt deserves. */
  lemma {:induction false} DrainHonoursAnswers(b: Book, ids: seq<int>, now: int, answers: Answers, interval: int,
                                               demo: Modes, k: nat)
    requires Distinct(ids) && k < |ids| && forall id :: id in ids ==> id in b.rows
    ensures var row := HandleAll(b, ids, now, answers, interval, demo).rows[ids[k]];
            Honours(b.rows[ids[k]], row, Outcomes(b, ids, now, answers, interval, demo)[k], now, interval)
  {
    if k == |ids| - 1 {
      LastIsHonoured(b, ids, now, answers, interval, demo);
    } else {
      var init := ids[..|ids| - 1];
      DrainHonoursAnswers(b, init, now, answers, interval, demo, k);
      LastLeavesTheRest(b, ids, now, answers, interval, demo, k);
    }
  }

  lemma LastIsHonoured(b: Book, ids: seq<int>, now: int, answers: Answers, interval: int, demo: Modes)
    requires Distinct(ids) && ids != [] && forall id :: id in ids ==> id in b.rows
    ensures var row := HandleAll(b, ids, now, answers, interval, demo).rows[ids[|ids| - 1]];
            Honours(b.rows[ids[|ids| - 1]], row, Outcomes(b, ids, now, answers, interval, demo)[|ids| - 1], now,
                    interval)
  {
    var init, id := ids[..|ids| - 1], ids[|ids| - 1];
    assert id !in init;
    DrainLeavesNoneProcessing(b, init, now, answers, interval, demo, id);
    OnlyThatRow(HandleAll(b, init, now, answers, interval, demo), id, now, answers(id), interval, demo);
  }

  lemma LastLeavesTheRest(b: Book, ids: seq<int>, now: int, answers: Answers, interval: int, demo: Modes, k: nat)
    requires Distinct(ids) && k < |ids| - 1 && forall id :: id in ids ==> id in b.rows
    ensures var init := ids[..|ids| - 1];
            && HandleAll(b, ids, now, answers, interval, demo).rows[ids[k]]
               == HandleAll(b, init, now, answers, interval, demo).rows[ids[k]]
            && Outcomes(b, ids, now, answers, interval, demo)[k] == Outcomes(b, init, now, answers, interval, demo)[k]
  {}

  /** And the counters are the answers of the pass, counted. */
  lemma {:induction false} CountersCountAnswers(b: Book, ids: seq<int>, now: int, answers: Answers, interval: int,
                                                demo: Modes)
    requires forall id :: id in ids ==> id in b.rows
    ensures Counts(StatsOf(b, ids, now, answers, interval, demo),
                   multiset(Outcomes(b, ids, now, answers, interval, demo)))
  {
    if ids != [] {
      var init, id := ids[..|ids| - 1], ids[|ids| - 1];
      CountersCountAnswers(b, init, now, answers, interval, demo);
      var before := HandleAll(b, init, now, answers, interval, demo);
      var i := Begun(before.rows[id], now);
      var s, os := StatsOf(b, init, now, answers, interval, demo), Outcomes(b, init, now, answers, interval, demo);
      TallyCounts(s, multiset(os), i, Tried(before, i, answers(id), demo));
    }
  }

  // ----- What a drain leaves ------------------------------------------------------------

  predicate Balanced(s: Stats, polled: nat) {
    s.polled == polled && s.polled == s.completed + s.skipped + s.retried + s.dead && s.errors <= s.retried + s.dead
  }

  lemma TallyKeepsBalance(s: Stats, polled: nat, i: Item, o: SignalDesk.Outcome)
    requires Balanced(s, polled)
    ensures Balanced(Tally(s, i, o), polled + 1)
  {}

  /** Every polled row is accounted for exactly once. */
  lemma {:induction false} DrainAccountsForAll(b: Book, ids: seq<int>, now: int, answers: Answers, interval: int,
                                               demo: Modes)
    requires forall id :: id in ids ==> id in b.rows
    ensures Balanced(StatsOf(b, ids, now, answers, interval, demo), |ids|)
  {
    if ids != [] {
      var init, id := ids[..|ids| - 1], ids[|ids| - 1];
      DrainAccountsForAll(b, init, now, answers, interval, demo);
      var before := HandleAll(b, init, now, answers, interval, demo);
      var i := Begun(before.rows[id], now);
      TallyKeepsBalance(StatsOf(b, init, now, answers, interval, demo), |init|, i, Tried(before, i, answers(id), demo));
    }
  }

  /** No handled row is left in processing, and no other row is touched. */
  lemma {:induction false} DrainLeavesNoneProcessing(b: Book, ids: seq<int>, now: int, answers: Answers, interval: int,
                                                     demo: Modes, id: int)
    requires id in b.rows && forall x :: x in ids ==> x in b.rows
    ensures var after := HandleAll(b, ids, now, answers, interval, demo).rows[id];
            if id in ids then after.status != Processing else after == b.rows[id]
  {
    if ids != [] {
      DrainLeavesNoneProcessing(b, ids[..|ids| - 1], now, answers, interval, demo, id);
    }
  }

  /** How many of these rows have a status. */
  function CountIn(rows: Rows, ids: seq<int>, status: Status): nat {
    if ids == [] then 0
    else
      var init, id := ids[..|ids| - 1], ids[|ids| - 1];
      CountIn(rows, init, status) + if id in rows && rows[id].status == status then 1 else 0
  }

  lemma {:induction false} CountFrame(rows: Rows, after: Rows, ids: seq<int>, status: Status)
    requires forall id :: id in ids ==> id in rows && id in after && after[id] == rows[id]
    ensures CountIn(after, ids, status) == CountIn(rows, ids, status)
  {
    if ids != [] { CountFrame(rows, after, ids[..|ids| - 1], status); }
  }

  /** The counters agree with how the handled rows are marked. */
  predicate Agrees(s: Stats, rows: Rows, ids: seq<int>) {
    && s.completed + s.skipped == CountIn(rows, ids, Done)
    && s.retried == CountIn(rows, ids, Queued) && s.dead == CountIn(rows, ids, Dead)
  }

  lemma TallyAgrees(s: Stats, i: Item, o: SignalDesk.Outcome, now: int, interval: int)
    ensures var t, status := Tally(s, i, o), Marked(i, o, now, interval).status;
            && t.completed + t.skipped == s.completed + s.skipped + (if status == Done then 1 else 0)
            && t.retried == s.retried + (if status == Queued then 1 else 0)
            && t.dead == s.dead + (if status == Dead then 1 else 0)
  {}

  /** Retried rows are the ones left pending, dead ones the ones left dead, the others are done. */
  lemma {:induction false} CountersMatchRows(b: Book, ids: seq<int>, now: int, answers: Answers, interval: int,
                                             demo: Modes)
    requires Distinct(ids) && forall id :: id in ids ==> id in b.rows
    ensures var after := HandleAll(b, ids, now, answers, interval, demo).rows;
            Agrees(StatsOf(b, ids, now, answers, interval, demo), after, ids)
  {
    if ids != [] {
      var init, id := ids[..|ids| - 1], ids[|ids| - 1];
      CountersMatchRows(b, init, now, answers, interval, demo);
      var before := HandleAll(b, init, now, answers, interval, demo);
      var i := Begun(before.rows[id], now);
      var s := StatsOf(b, init, now, answers, interval, demo);
      TallyAgrees(s, i, Tried(before, i, answers(id), demo), now, interval);
      var after := Handle(before, id, now, answers(id), interval, demo).rows;
      CountFrame(before.rows, after, init, Done);
      CountFrame(before.rows, after, init, Queued);
      CountFrame(before.rows, after, init, Dead);
    }
  }

  // ----- Which rows a select returns ----------------------------------------------------

  /** Row a comes before row b: its retry time is earlier, or the same and its id is smaller. */
  predicate Earlier(rows: Rows, a: int, b: int)
    requires a in rows && b in rows
  {
    rows[a].nextRetryAt < rows[b].nextRetryAt || (rows[a].nextRetryAt == rows[b].nextRetryAt && a < b)
  }

  /** A select returns pending rows whose time has come and that nobody has locked, and leaves out only later ones. */
  lemma BatchIsFirstDue(batch: seq<int>, rows: Rows, locked: set<int>, now: int, limit: nat)
    requires IsBatch(batch, rows, Due(rows, locked, now), limit)
    ensures |batch| <= limit
    ensures forall id :: id in batch ==> id in rows && id !in locked && rows[id].status == Queued
                                         && rows[id].nextRetryAt <= now
    ensures forall i, j :: 0 <= i < j < |batch| ==> Earlier(rows, batch[i], batch[j])
    ensures forall id :: id in rows && id !in locked && rows[id].status == Queued && rows[id].nextRetryAt <= now
              ==> id in batch || (|batch| == limit && forall x :: x in batch ==> Earlier(rows, x, id))
  {
    forall id | id in batch ensures id in Due(rows, locked, now) {}
    forall i, j | 0 <= i < j < |batch| ensures Earlier(rows, batch[i], batch[j]) {
      assert Before(rows, batch[i], batch[j]);
    }
    forall id | id in Due(rows, locked, now) && id !in batch
      ensures |batch| == limit && forall x :: x in batch ==> Earlier(rows, x, id)
    {
      assert id in Due(rows, locked, now) - Members(batch);
    }
  }

  /** Rows in select order are distinct. */
  lemma SortedIsDistinct(rows: Rows, ids: seq<int>)
    requires Sorted(rows, ids)
    ensures Distinct(ids)
  {
    forall i, j | 0 <= i < j < |ids| ensures ids[i] != ids[j] {
      assert Before(rows, ids[i], ids[j]);
    }
  }

  lemma {:induction false} DistinctSize(ids: seq<int>)
    requires Distinct(ids)
    ensures |Members(ids)| == |ids|
  {
    if ids != [] {
      var init, last := ids[..|ids| - 1], ids[|ids| - 1];
      DistinctSize(init);
      assert last !in Members(init);
      assert Members(ids) == Members(init) + {last};
    }
  }

  /** The batch is determined by the rows: there is only one. */
  lemma {:induction false} BatchIsUnique(a: seq<int>, b: seq<int>, rows: Rows, due: set<int>, limit: nat, n: nat)
    requires IsBatch(a, rows, due, limit) && IsBatch(b, rows, due, limit) && n <= |a| && n <= |b|
    ensures a[..n] == b[..n]
  {
    if n > 0 {
      BatchIsUnique(a, b, rows, due, limit, n - 1);
      if a[n - 1] != b[n - 1] {
        NotEarlier(a, b, rows, due, limit, n - 1);
        NotEarlier(b, a, rows, due, limit, n - 1);
      }
      assert a[..n] == a[..n - 1] + [a[n - 1]] && b[..n] == b[..n - 1] + [b[n - 1]];
    }
  }

  /** Behind a common start, no batch has an earlier row than the other. */
  lemma NotEarlier(a: seq<int>, b: seq<int>, rows: Rows, due: set<int>, limit: nat, n: nat)
    requires IsBatch(a, rows, due, limit) && IsBatch(b, rows, due, limit) && n < |a| && n < |b| && a[..n] == b[..n]
    requires a[n] != b[n]
    ensures Before(rows, a[n], b[n])
  {
    var x := b[n];
    assert x in b && x in due;
    forall j | 0 <= j < n ensures a[j] != x {
      assert a[j] == a[..n][j] == b[..n][j] == b[j];
      assert Before(rows, b[j], b[n]);
    }
    if x in a {
      var j :| 0 <= j < |a| && a[j] == x;
      assert Before(rows, a[n], a[j]);
    } else {
      assert x in due - Members(a);
    }
  }

  /** The batch has as many rows as are due, up to the limit. */
  lemma BatchSize(batch: seq<int>, rows: Rows, due: set<int>, limit: nat)
    requires IsBatch(batch, rows, due, limit)
    ensures |batch| == if |due| < limit then |due| else limit
  {
    SortedIsDistinct(rows, batch);
    DistinctSize(batch);
    forall id | id in Members(batch) ensures id in due {
      assert id in batch;
    }
    SubsetSize(Members(batch), due);
    if |batch| < limit {
      SubsetSize(due, Members(batch));
    }
  }

  lemma SameBatch(a: seq<int>, b: seq<int>, rows: Rows, due: set<int>, limit: nat)
    requires IsBatch(a, rows, due, limit) && IsBatch(b, rows, due, limit)
    ensures a == b
  {
    BatchSize(a, rows, due, limit);
    BatchSize(b, rows, due, limit);
    BatchIsUnique(a, b, rows, due, limit, |a|);
    assert a[..|a|] == a && b[..|b|] == b;
  }

  // ----- A drain whose marks its selects cannot see -------------------------------------

  /** The session's rows and the desks after a number of rounds over one and the same batch. */
  function Unseen(b: Book, batch: seq<int>, rounds: nat, now: int, answers: nat -> Answers, interval: int,
                  demo: Modes): (r: Book)
    requires forall id :: id in batch ==> id in b.rows
    ensures r.rows.Keys == b.rows.Keys
  {
    if rounds == 0 then b
    else
      var before := Unseen(b, batch, rounds - 1, now, answers, interval, demo);
      HandleAll(before, batch, now, answers(rounds - 1), interval, demo)
  }

  lemma OneMoreRound(b: Book, so: Book, batch: seq<int>, n: nat, now: int, answers: nat -> Answers, interval: int,
                     demo: Modes)
    requires forall id :: id in batch ==> id in b.rows && id in so.rows
    requires so == Unseen(b, batch, n, now, answers, interval, demo)
    ensures HandleAll(so, batch, now, answers(n), interval, demo)
         == Unseen(b, batch, n + 1, now, answers, interval, demo)
  {}

  lemma {:induction false} OneAttemptEach(b: Book, ids: seq<int>, now: int, answers: Answers, interval: int,
                                          demo: Modes, id: int)
    requires Distinct(ids) && id in b.rows && forall x :: x in ids ==> x in b.rows
    ensures var after := HandleAll(b, ids, now, answers, interval, demo).rows[id];
            && after.attempt == b.rows[id].attempt + (if id in ids then 1 else 0)
            && after.maxAttempts == b.rows[id].maxAttempts
  {
    if ids != [] {
      var init, last := ids[..|ids| - 1], ids[|ids| - 1];
      OneAttemptEach(b, init, now, answers, interval, demo, id);
      assert last !in init;
      assert ids == init + [last];
    }
  }

  /** The row has been tried that many times more. */
  predicate TriedMore(b: Book, after: Book, id: int, n: nat) {
    && id in b.rows && id in after.rows
    && after.rows[id].attempt == b.rows[id].attempt + n && after.rows[id].maxAttempts == b.rows[id].maxAttempts
  }

  lemma TriedMoreAdds(a: Book, b: Book, c: Book, id: int, m: nat, n: nat)
    requires TriedMore(a, b, id, m) && TriedMore(b, c, id, n)
    ensures TriedMore(a, c, id, m + n)
  {}

  lemma RoundCounts(b: Book, batch: seq<int>, now: int, answers: Answers, interval: int, demo: Modes, id: int)
    requires Distinct(batch) && id in batch && forall x :: x in batch ==> x in b.rows
    ensures TriedMore(b, HandleAll(b, batch, now, answers, interval, demo), id, 1)
  {
    OneAttemptEach(b, batch, now, answers, interval, demo, id);
  }

  /** Every round counts another attempt on every row of the batch, past any limit. */
  lemma {:induction false} UnseenAttemptsGrow(b: Book, batch: seq<int>, n: nat, now: int, answers: nat -> Answers,
                                              interval: int,
                                              demo: Modes, id: int)
    requires Distinct(batch) && id in batch && forall x :: x in batch ==> x in b.rows
    ensures var after := Unseen(b, batch, n, now, answers, interval, demo);
            && TriedMore(b, after, id, n)
            && (n > b.rows[id].maxAttempts ==> after.rows[id].attempt > after.rows[id].maxAttempts)
  {
    if n > 0 {
      UnseenAttemptsGrow(b, batch, n - 1, now, answers, interval, demo, id);
      var before := Unseen(b, batch, n - 1, now, answers, interval, demo);
      RoundCounts(before, batch, now, answers(n - 1), interval, demo, id);
      TriedMoreAdds(b, before, HandleAll(before, batch, now, answers(n - 1), interval, demo), id, n - 1, 1);
    }
  }

  // ----- A queue on which it never ends -------------------------------------------------

  function Upto(n: nat): (s: set<int>)
    ensures |s| == n && forall i :: i in s <==> 0 <= i < n
  {
    if n == 0 then {} else Upto(n - 1) + {n - 1}
  }

  /** A batch full of due rows of one strategy. */
  function FullQueue(limit: nat, desk: SignalDesk.Desk): Book {
    Book(map id | id in Upto(limit) :: Fresh(1, desk.config.content.profile, id, 5, 0), map[1 := desk])
  }

  lemma FullQueueIsDue(limit: nat, desk: SignalDesk.Desk)
    ensures Due(FullQueue(limit, desk).rows, {}, 0) == Upto(limit)
  {
    var rows := FullQueue(limit, desk).rows;
    forall id | id in Upto(limit) ensures id in Due(rows, {}, 0) {
      assert IsDue(rows[id], 0);
    }
    forall id | id in Due(rows, {}, 0) ensures id in Upto(limit) {
      assert id in rows.Keys;
    }
  }

  /** A stopped strategy's desk is left alone by every attempt. */
  lemma StoppedDeskIsIdle(b: Book, i: Item, e: SignalDesk.Env, demo: Modes)
    requires i.config in b.desks && !b.desks[i.config].config.running
    ensures DesksAfter(b, i, e, demo) == b.desks
  {
    assert AtDesk(b, i, e, demo).desk == b.desks[i.config];
  }

  lemma {:induction false} PassIsIdle(b: Book, ids: seq<int>, now: int, answers: Answers, interval: int, demo: Modes)
    requires forall id :: id in ids ==> id in b.rows
    requires forall id :: id in b.rows ==> b.rows[id].config in b.desks && !b.desks[b.rows[id].config].config.running
    ensures var after := HandleAll(b, ids, now, answers, interval, demo);
            after.desks == b.desks && forall id :: id in b.rows ==> after.rows[id].config == b.rows[id].config
  {
    if ids != [] {
      var init, id := ids[..|ids| - 1], ids[|ids| - 1];
      PassIsIdle(b, init, now, answers, interval, demo);
      var before := HandleAll(b, init, now, answers, interval, demo);
      StoppedDeskIsIdle(before, Begun(before.rows[id], now), answers(id), demo);
    }
  }

  lemma {:induction false} RoundsAreIdle(b: Book, batch: seq<int>, n: nat, now: int, answers: nat -> Answers,
                                         interval: int,
                                         demo: Modes)
    requires forall id :: id in batch ==> id in b.rows
    requires forall id :: id in b.rows ==> b.rows[id].config in b.desks && !b.desks[b.rows[id].config].config.running
    ensures var after := Unseen(b, batch, n, now, answers, interval, demo);
            after.desks == b.desks && forall id :: id in b.rows ==> after.rows[id].config == b.rows[id].config
  {
    if n > 0 {
      RoundsAreIdle(b, batch, n - 1, now, answers, interval, demo);
      PassIsIdle(Unseen(b, batch, n - 1, now, answers, interval, demo), batch, now, answers(n - 1), interval, demo);
    }
  }

  /**
   * The failing input: as many due rows of one stopped strategy as a batch holds. Whatever
   * the answers, every round polls all of them again, the n-th one makes it n attempts on
   * each, six rounds are past the limit of five, and the desk never changes.
   */
  lemma StoppedStrategyLoopsForever(limit: nat, desk: SignalDesk.Desk, batch: seq<int>, n: nat, answers: nat -> Answers,
                                    interval: int, demo: Modes)
    requires limit >= 1 && !desk.config.running
    requires IsBatch(batch, FullQueue(limit, desk).rows, Due(FullQueue(limit, desk).rows, {}, 0), limit)
    ensures |batch| == limit && |Due(FullQueue(limit, desk).rows, {}, 0)| >= limit
    ensures forall id :: id in batch ==> id in FullQueue(limit, desk).rows
    ensures var after := Unseen(FullQueue(limit, desk), batch, n, 0, answers, interval, demo);
            && after.desks == map[1 := desk]
            && (forall id :: id in batch ==> after.rows[id].attempt == n && after.rows[id].maxAttempts == 5)
  {
    var b := FullQueue(limit, desk);
    FullQueueIsDue(limit, desk);
    BatchSize(batch, b.rows, Due(b.rows, {}, 0), limit);
    SortedIsDistinct(b.rows, batch);
    forall id | id in batch ensures id in b.rows {
      assert id in Due(b.rows, {}, 0);
    }
    RoundsAreIdle(b, batch, n, 0, answers, interval, demo);
    forall id | id in batch
      ensures Unseen(b, batch, n, 0, answers, interval, demo).rows[id].attempt == n
      ensures Unseen(b, batch, n, 0, answers, interval, demo).rows[id].maxAttempts == 5
    {
      UnseenAttemptsGrow(b, batch, n, 0, answers, interval, demo, id);
    }
  }

  // ----- Whole runs ---------------------------------------------------------------------

  /** Any interleaving of queueing, attempts at due rows, and what else happens to the desks. */
  datatype Action =
    | Queue(id: int, config: int, profile: int, history: int, maxAttempts: nat, now: int)
    | Try(id: int, now: int, env: SignalDesk.Env)
    | OnDesk(config: int, action: SignalDesk.Action)

  predicate Enabled(b: Book, a: Action) {
    match a
    case Queue(id, config, profile, history, maxAttempts, now) =>
      && id !in b.rows && maxAttempts >= 1 && config in b.desks && Listens(b.desks[config], profile)
      && !Has(b.rows, history, config)
    case Try(id, now, env) => id in b.rows && IsDue(b.rows[id], now)
    case OnDesk(config, action) => config in b.desks && !action.Try?
  }

  function Next(b: Book, a: Action, interval: int, demo: Modes, hash: Lifecycle.Hash): Book {
    if !Enabled(b, a) then b
    else match a
      case Queue(id, config, profile, history, maxAttempts, now) =>
        b.(rows := b.rows[id := Fresh(config, profile, history, maxAttempts, now)])
      case Try(id, now, env) => Handle(b, id, now, env, interval, demo)
      case OnDesk(config, action) =>
        b.(desks := b.desks[config := SignalDesk.Next(b.desks[config], action, demo(config), hash)])
  }

  function After(b: Book, run: seq<Action>, interval: int, demo: Modes, hash: Lifecycle.Hash): Book {
    if run == [] then b
    else Next(After(b, run[..|run| - 1], interval, demo, hash), run[|run| - 1], interval, demo, hash)
  }

  /** The attempts a drain makes, as a run. */
  function Attempts(ids: seq<int>, now: int, answers: Answers): seq<Action> {
    seq(|ids|, i requires 0 <= i < |ids| => Try(ids[i], now, answers(ids[i])))
  }

  /** A drain over distinct due rows is a run: every row is still due when its turn comes. */
  lemma {:induction false} DrainIsARun(b: Book, ids: seq<int>, now: int, answers: Answers, interval: int, demo: Modes,
                                       hash: Lifecycle.Hash)
    requires Distinct(ids) && forall id :: id in ids ==> id in b.rows && IsDue(b.rows[id], now)
    ensures HandleAll(b, ids, now, answers, interval, demo)
         == After(b, Attempts(ids, now, answers), interval, demo, hash)
  {
    if ids != [] {
      var init, last := ids[..|ids| - 1], ids[|ids| - 1];
      DrainIsARun(b, init, now, answers, interval, demo, hash);
      var run := Attempts(ids, now, answers);
      assert run[..|run| - 1] == Attempts(init, now, answers);
      assert last !in init;
      DrainLeavesNoneProcessing(b, init, now, answers, interval, demo, last);
    }
  }

  // ----- No report is dropped without cause ---------------------------------------------

  /** What the desks answered to the attempts at one row along a run, in order. */
  function Answered(b: Book, run: seq<Action>, interval: int, demo: Modes, hash: Lifecycle.Hash,
                    id: int): seq<SignalDesk.Outcome> {
    if run == [] then []
    else
      var init, a := run[..|run| - 1], run[|run| - 1];
      var before := After(b, init, interval, demo, hash);
      Answered(b, init, interval, demo, hash, id)
      + if a.Try? && a.id == id && Enabled(before, a) then [Tried(before, before.rows[id], a.env, demo)] else []
  }

  /** A row and the answers it got: it was tried again for as long as it should be, and no longer. */
  predicate Explains(i: Item, os: seq<SignalDesk.Outcome>) {
    && i.attempt == |os| && i.maxAttempts >= 1 && i.status != Processing
    && (forall k :: 0 <= k < |os| - 1 ==> os[k] == SignalDesk.Raised(true))
    && (os == [] ==> i.status == Queued)
    && (os != [] ==> var last := os[|os| - 1];
        && (i.status == Done <==> last == SignalDesk.Completed || last == SignalDesk.Skipped)
        && (i.status == Queued <==> last == SignalDesk.Raised(true) && |os| < i.maxAttempts)
        && (i.status == Dead
            <==> (last == SignalDesk.Dead || last == SignalDesk.Raised(false)
                  || (last == SignalDesk.Raised(true) && |os| >= i.maxAttempts))))
  }

  lemma OneMoreAnswer(was: Item, row: Item, os: seq<SignalDesk.Outcome>, o: SignalDesk.Outcome, now: int,
                      interval: int)
    requires Explains(was, os) && was.status == Queued && Honours(was, row, o, now, interval)
    ensures Explains(row, os + [o])
  {}

  /**
   * In any run that starts with an empty queue: a row is pending exactly while every attempt
   * raised a failure that may be repeated and attempts are left, done exactly if its last
   * attempt completed or was skipped, and dead exactly if the last one could not be repeated
   * or was the last one allowed.
   */
  lemma {:induction false} RowsFollowTheirAnswers(b: Book, run: seq<Action>, interval: int, demo: Modes,
                                                  hash: Lifecycle.Hash, id: int)
    requires b.rows == map[]
    ensures var rows, os := After(b, run, interval, demo, hash).rows, Answered(b, run, interval, demo, hash, id);
            if id in rows then Explains(rows[id], os) else os == []
  {
    if run != [] {
      var init, a := run[..|run| - 1], run[|run| - 1];
      RowsFollowTheirAnswers(b, init, interval, demo, hash, id);
      var before := After(b, init, interval, demo, hash);
      StepExplains(before, a, interval, demo, hash, id, Answered(b, init, interval, demo, hash, id));
    }
  }

  lemma StepExplains(b: Book, a: Action, interval: int, demo: Modes, hash: Lifecycle.Hash, id: int,
                     os: seq<SignalDesk.Outcome>)
    requires if id in b.rows then Explains(b.rows[id], os) else os == []
    ensures var rows, tried := Next(b, a, interval, demo, hash).rows, a.Try? && a.id == id && Enabled(b, a);
            var more := os + if tried then [Tried(b, b.rows[id], a.env, demo)] else [];
            if id in rows then Explains(rows[id], more) else more == []
  {
    if a.Try? && Enabled(b, a) {
      OnlyThatRow(b, a.id, a.now, a.env, interval, demo);
      if a.id == id {
        OneMoreAnswer(b.rows[id], Next(b, a, interval, demo, hash).rows[id], os, Tried(b, b.rows[id], a.env, demo),
                      a.now, interval);
      }
    }
  }

  // ----- Attempts are bounded and spaced ------------------------------------------------

  /** Attempts so far are within the limit, each at least its delay after the one before. */
  predicate RowInv(i: Item, interval: int) {
    && i.attempt == |i.tries| <= i.maxAttempts && i.status != Processing
    && (i.status == Queued ==> i.attempt < i.maxAttempts)
    && (i.status == Queued && i.attempt > 0 ==> i.nextRetryAt == i.tries[i.attempt - 1] + interval * i.attempt)
    && (forall k :: 0 < k < |i.tries| ==> i.tries[k] >= i.tries[k - 1] + interval * k)
  }

  ghost predicate BookInv(b: Book, interval: int) {
    forall id :: id in b.rows ==> RowInv(b.rows[id], interval)
  }

  lemma HandleKeepsRow(i: Item, o: SignalDesk.Outcome, now: int, interval: int)
    requires RowInv(i, interval) && IsDue(i, now)
    ensures RowInv(Marked(Begun(i, now), o, now, interval), interval)
  {
    var tries := Begun(i, now).tries;
    forall k | 0 < k < |tries| ensures tries[k] >= tries[k - 1] + interval * k {
      if k < |i.tries| { assert tries[k] == i.tries[k]; }
    }
  }

  lemma {:induction false} RunKeepsRows(b: Book, run: seq<Action>, interval: int, demo: Modes, hash: Lifecycle.Hash)
    requires BookInv(b, interval)
    ensures BookInv(After(b, run, interval, demo, hash), interval)
  {
    if run != [] {
      RunKeepsRows(b, run[..|run| - 1], interval, demo, hash);
      var before, a := After(b, run[..|run| - 1], interval, demo, hash), run[|run| - 1];
      if Enabled(before, a) && a.Try? {
        var i := Begun(before.rows[a.id], a.now);
        HandleKeepsRow(before.rows[a.id], Tried(before, i, a.env, demo), a.now, interval);
      }
    }
  }

  /** All the delays before the n-th attempt. */
  function Waits(interval: int, n: nat): int {
    if n <= 1 then 0 else Waits(interval, n - 1) + interval * (n - 1)
  }

  lemma Spread(interval: int, n: int)
    ensures interval * (n * (n - 1)) == interval * ((n - 1) * (n - 2)) + 2 * (interval * (n - 1))
  {
    var m := n - 1;
    assert n * m == m * (n - 2) + 2 * m;
    Distribute(interval, m * (n - 2), 2 * m);
    Distribute(interval, m, m);
  }

  lemma Distribute(x: int, y: int, z: int)
    ensures x * (y + z) == x * y + x * z
  {}

  lemma {:induction false} WaitsFormula(interval: int, n: nat)
    requires n >= 1
    ensures 2 * Waits(interval, n) == interval * (n * (n - 1))
  {
    if n > 1 {
      WaitsFormula(interval, n - 1);
      Spread(interval, n);
    }
  }

  lemma {:induction false} DelaysAddUp(tries: seq<int>, interval: int, n: nat)
    requires 1 <= n <= |tries| && forall k :: 0 < k < |tries| ==> tries[k] >= tries[k - 1] + interval * k
    ensures tries[n - 1] - tries[0] >= Waits(interval, n)
  {
    if n > 1 {
      DelaysAddUp(tries, interval, n - 1);
      assert tries[n - 1] >= tries[n - 2] + interval * (n - 1);
    }
  }

  /**
   * Over any run a row is attempted at most as often as allowed, and its n-th attempt comes
   * at least interval * n(n-1)/2 after its first, whatever the clocks of the workers.
   */
  lemma AttemptsAreBoundedAndSpaced(b: Book, run: seq<Action>, interval: int, demo: Modes, hash: Lifecycle.Hash,
                                    id: int,
                                    n: nat)
    requires BookInv(b, interval) && id in After(b, run, interval, demo, hash).rows
    ensures var i := After(b, run, interval, demo, hash).rows[id];
            i.attempt == |i.tries| <= i.maxAttempts
            && (1 <= n <= |i.tries| ==> 2 * (i.tries[n - 1] - i.tries[0]) >= interval * (n * (n - 1)))
  {
    RunKeepsRows(b, run, interval, demo, hash);
    var i := After(b, run, interval, demo, hash).rows[id];
    assert RowInv(i, interval);
    if 1 <= n <= |i.tries| {
      DelaysAddUp(i.tries, interval, n);
      WaitsFormula(interval, n);
    }
  }

  // ----- What the desks go through ------------------------------------------------------

  /** What an action of the queue means for one desk, if it concerns it. */
  function Share(b: Book, a: Action, c: int): seq<SignalDesk.Action> {
    if !Enabled(b, a) then []
    else if a.Try? && b.rows[a.id].config == c then
      [SignalDesk.Try(SignalDesk.Report(b.rows[a.id].history, b.rows[a.id].profile), a.env.(configFound := true))]
    else if a.OnDesk? && a.config == c then [a.action]
    else []
  }

  /** The run as one desk sees it. */
  function Own(b: Book, run: seq<Action>, interval: int, demo: Modes, hash: Lifecycle.Hash,
               c: int): seq<SignalDesk.Action> {
    if run == [] then []
    else
      var init := run[..|run| - 1];
      Own(b, init, interval, demo, hash, c) + Share(After(b, init, interval, demo, hash), run[|run| - 1], c)
  }

  lemma OneAction(b: Book, a: Action, interval: int, demo: Modes, hash: Lifecycle.Hash, c: int)
    requires c in b.desks
    ensures c in Next(b, a, interval, demo, hash).desks && |Share(b, a, c)| <= 1
    ensures Next(b, a, interval, demo, hash).desks[c]
            == if Share(b, a, c) == [] then b.desks[c]
               else SignalDesk.Next(b.desks[c], Share(b, a, c)[0], demo(c), hash)
  {}

  /** Whatever the queue does, every desk goes through the run as it sees it. */
  lemma {:induction false} DeskRun(b: Book, run: seq<Action>, interval: int, demo: Modes, hash: Lifecycle.Hash, c: int)
    requires c in b.desks
    ensures c in After(b, run, interval, demo, hash).desks
    ensures After(b, run, interval, demo, hash).desks[c]
         == SignalDesk.After(b.desks[c], Own(b, run, interval, demo, hash, c), demo(c), hash)
  {
    if run != [] {
      var init, a := run[..|run| - 1], run[|run| - 1];
      var before := After(b, init, interval, demo, hash);
      DeskRun(b, init, interval, demo, hash, c);
      OneAction(before, a, interval, demo, hash, c);
      var own, share := Own(b, init, interval, demo, hash, c), Share(before, a, c);
      if share == [] {
        assert own + share == own;
      } else {
        assert share == [share[0]];
        assert (own + share)[..|own|] == own;
      }
    }
  }

  /** Every entry order that any drain ever sends comes from a strategy that may trade. */
  lemma QueueEntriesAreAllowed(b: Book, run: seq<Action>, interval: int, demo: Modes, hash: Lifecycle.Hash, c: int)
    requires c in b.desks && SignalDesk.OrdersInv(b.desks[c], demo(c))
    ensures c in After(b, run, interval, demo, hash).desks
    ensures SignalDesk.OrdersInv(After(b, run, interval, demo, hash).desks[c], demo(c))
  {
    DeskRun(b, run, interval, demo, hash, c);
    SignalDesk.EntriesAreAllowed(b.desks[c], Own(b, run, interval, demo, hash, c), demo(c), hash);
  }

  /** The decisions of a desk increase although the queue is ordered by retry time. */
  lemma QueueDecisionsIncrease(b: Book, run: seq<Action>, interval: int, demo: Modes, hash: Lifecycle.Hash, c: int)
    requires c in b.desks
    ensures c in After(b, run, interval, demo, hash).desks
    ensures var decided := SignalDesk.Decided(b.desks[c], Own(b, run, interval, demo, hash, c), demo(c), hash);
            SignalDesk.Increasing(decided)
            && SignalDesk.Between(decided, b.desks[c].processed, After(b, run, interval, demo, hash).desks[c].processed)
  {
    DeskRun(b, run, interval, demo, hash, c);
    SignalDesk.DecisionsIncrease(b.desks[c], Own(b, run, interval, demo, hash, c), demo(c), hash);
  }

  /** Behind any queue, a confirmed close of an announced position rests on enough distinct reports. */
  lemma QueueConfirmedCloseIsEarned(b: Book, run: seq<Action>, interval: int, demo: Modes, hash: Lifecycle.Hash, c: int,
                                    required: int, fast: real, k: nat)
    returns (j: int)
    requires c in b.desks && SignalDesk.StreakInv(b.desks[c], required, fast)
    requires SignalDesk.FixedThresholds(b.desks[c], Own(b, run, interval, demo, hash, c), demo(c), hash, required, fast)
    requires var desks := After(b, run, interval, demo, hash).desks;
             c in desks && k < |desks[c].log| && desks[c].log[k].Confirmed? && desks[c].log[k].announced
    ensures SignalDesk.Earned(After(b, run, interval, demo, hash).desks[c].log, k, j, required, fast)
  {
    DeskRun(b, run, interval, demo, hash, c);
    var own := Own(b, run, interval, demo, hash, c);
    j := SignalDesk.ConfirmedCloseIsEarned(b.desks[c], own, demo(c), hash, required, fast, k);
  }
}
