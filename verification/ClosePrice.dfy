/**
 * Inference of the close price and result of a position from the account's trades.
 *
 * Trades on the exit side are taken newest first until the position's quantity is
 * covered; the close price is the quantity-weighted price of what was taken.
 */
module ClosePrice {
  import opened Common

  datatype Direction = Buy | Sell
  datatype Side = Long | Short

  /** `time` and `closedPnl` may be missing; the fee is already in quote currency. */
  datatype Trade = Trade(direction: Direction, amount: real, price: real, time: Option<int>,
                         fee: real, closedPnl: Option<real>)

  datatype Inference = Inference(closePrice: real, realized: real)

  function ExitDirection(side: Side): Direction {
    if side == Long then Sell else Buy
  }

  predicate IsCandidate(t: Trade, side: Side) {
    t.direction == ExitDirection(side) && t.amount > EPSILON && t.price > EPSILON
  }

  /** At least as new; a trade without a time is older than every other. */
  predicate NotOlder(a: Trade, b: Trade) {
    b.time.None? || (a.time.Some? && a.time.value >= b.time.value)
  }

  // ----- Newest first ---------------------------------------------------------------

  predicate NewestFirst(ts: seq<Trade>) {
    forall i, j :: 0 <= i < j < |ts| ==> NotOlder(ts[i], ts[j])
  }

  function Insert(t: Trade, ts: seq<Trade>): (r: seq<Trade>)
    ensures multiset(r) == multiset(ts) + multiset{t}
  {
    if ts == [] then [t]
    else if NotOlder(t, ts[0]) then
      assert [t] + ts == [t] + [ts[0]] + ts[1..];
      [t] + ts
    else
      assert ts == [ts[0]] + ts[1..];
      [ts[0]] + Insert(t, ts[1..])
  }

  /** The candidates, ordered newest first; trades of equal time keep their order. */
  function Candidates(trades: seq<Trade>, side: Side): seq<Trade> {
    if trades == [] then []
    else if IsCandidate(trades[0], side) then Insert(trades[0], Candidates(trades[1..], side))
    else Candidates(trades[1..], side)
  }

  lemma {:induction false} InsertKeepsOrder(t: Trade, ts: seq<Trade>)
    requires NewestFirst(ts)
    ensures NewestFirst(Insert(t, ts))
  {
    if ts != [] && !NotOlder(t, ts[0]) {
      InsertKeepsOrder(t, ts[1..]);
      var r := Insert(t, ts[1..]);
      forall j | 0 <= j < |r| ensures NotOlder(ts[0], r[j]) {
        assert r[j] in multiset(r);
        assert r[j] == t || r[j] in ts[1..];
      }
    }
  }

  /** The candidates are exactly the exit-side trades of usable size, newest first. */
  lemma {:induction false} CandidatesSortAndFilter(trades: seq<Trade>, side: Side)
    ensures NewestFirst(Candidates(trades, side))
    ensures var ts := Candidates(trades, side);
            forall i, j :: 0 <= i < j < |ts| && ts[j].time.Some?
              ==> ts[i].time.Some? && ts[i].time.value >= ts[j].time.value
    ensures forall t :: multiset(Candidates(trades, side))[t]
                     == if IsCandidate(t, side) then multiset(trades)[t] else 0
  {
    if trades != [] {
      CandidatesSortAndFilter(trades[1..], side);
      assert trades == [trades[0]] + trades[1..];
      if IsCandidate(trades[0], side) {
        InsertKeepsOrder(trades[0], Candidates(trades[1..], side));
      }
    }
  }

  /** A long position is left by selling and a short one by buying; dust and free trades do not count. */
  lemma WhichTradesCount(t: Trade, side: Side)
    ensures IsCandidate(t, side)
       <==> (side.Long? <==> t.direction.Sell?) && t.amount > 0.000000001 && t.price > 0.000000001
  {}

  /** The trades that count, as they came. */
  function Exits(trades: seq<Trade>, side: Side): seq<Trade> {
    if trades == [] then []
    else (if IsCandidate(trades[0], side) then [trades[0]] else []) + Exits(trades[1..], side)
  }

  function IfOfTime(t: Trade, time: Option<int>): seq<Trade> {
    if t.time == time then [t] else []
  }

  /** The trades of one time, in order. */
  function OfTime(ts: seq<Trade>, time: Option<int>): seq<Trade> {
    if ts == [] then [] else IfOfTime(ts[0], time) + OfTime(ts[1..], time)
  }

  lemma OfTimeAhead(t: Trade, ts: seq<Trade>, time: Option<int>)
    ensures OfTime([t] + ts, time) == IfOfTime(t, time) + OfTime(ts, time)
  {
    assert ([t] + ts)[1..] == ts;
  }

  /** A trade is inserted ahead of all others of its time. */
  lemma {:induction false} InsertGoesAhead(t: Trade, ts: seq<Trade>, time: Option<int>)
    ensures OfTime(Insert(t, ts), time) == IfOfTime(t, time) + OfTime(ts, time)
  {
    if ts == [] || NotOlder(t, ts[0]) {
      assert ts == [] ==> [t] + ts == [t];
      OfTimeAhead(t, ts, time);
    } else {
      var x, rest := ts[0], ts[1..];
      InsertGoesAhead(t, rest, time);
      OfTimeAhead(x, Insert(t, rest), time);
      Swap(IfOfTime(x, time), IfOfTime(t, time), OfTime(rest, time));
    }
  }

  lemma Swap(a: seq<Trade>, b: seq<Trade>, c: seq<Trade>)
    requires a == [] || b == []
    ensures a + (b + c) == b + (a + c)
  {
    assert [] + c == c;
  }

  /** Sorting is stable: trades of the same time are taken in the order in which they came. */
  lemma {:induction false} SameTimeKeepsOrder(trades: seq<Trade>, side: Side, time: Option<int>)
    ensures OfTime(Candidates(trades, side), time) == OfTime(Exits(trades, side), time)
  {
    if trades != [] {
      var t, rest := trades[0], trades[1..];
      SameTimeKeepsOrder(rest, side, time);
      if IsCandidate(t, side) {
        InsertGoesAhead(t, Candidates(rest, side), time);
        OfTimeAhead(t, Candidates(rest, side), time);
        OfTimeAhead(t, Exits(rest, side), time);
      } else {
        assert Exits(trades, side) == Exits(rest, side);
      }
    }
  }

  // ----- Consumption ----------------------------------------------------------------

  function Amounts(ts: seq<Trade>): real {
    if ts == [] then 0.0 else Amounts(ts[..|ts| - 1]) + ts[|ts| - 1].amount
  }

  /** What is still uncovered once the first n trades were taken in full. */
  function Uncovered(ts: seq<Trade>, target: real, n: nat): real
    requires n <= |ts|
  {
    target - Amounts(ts[..n])
  }

  /** How many trades are consumed: as many as it takes to leave nothing but dust. */
  function Consumed(ts: seq<Trade>, target: real, from: nat): (n: nat)
    requires from <= |ts|
    ensures from <= n <= |ts|
    ensures n == |ts| || Uncovered(ts, target, n) <= EPSILON
    ensures forall i :: from <= i < n ==> Uncovered(ts, target, i) > EPSILON
    decreases |ts| - from
  {
    if from == |ts| || Uncovered(ts, target, from) <= EPSILON then from
    else Consumed(ts, target, from + 1)
  }

  /** The part of the i-th trade that counts. */
  function Take(ts: seq<Trade>, target: real, i: nat): real
    requires i < |ts|
  {
    MinR(ts[i].amount, Uncovered(ts, target, i))
  }

  function Matched(ts: seq<Trade>, target: real, n: nat): real
    requires n <= |ts|
  {
    if n == 0 then 0.0 else Matched(ts, target, n - 1) + Take(ts, target, n - 1)
  }

  function Worth(price: real, quantity: real): real {
    price * quantity
  }

  function Cost(ts: seq<Trade>, target: real, n: nat): real
    requires n <= |ts|
  {
    if n == 0 then 0.0 else Cost(ts, target, n - 1) + Worth(ts[n - 1].price, Take(ts, target, n - 1))
  }

  function Fees(ts: seq<Trade>): real {
    if ts == [] then 0.0 else Fees(ts[..|ts| - 1]) + ts[|ts| - 1].fee
  }

  function Reported(ts: seq<Trade>): real {
    if ts == [] then 0.0
    else Reported(ts[..|ts| - 1]) + if ts[|ts| - 1].closedPnl.Some? then ts[|ts| - 1].closedPnl.value else 0.0
  }

  function Hits(ts: seq<Trade>): nat {
    if ts == [] then 0 else Hits(ts[..|ts| - 1]) + if ts[|ts| - 1].closedPnl.Some? then 1 else 0
  }

  predicate Usable(ts: seq<Trade>) {
    forall i :: 0 <= i < |ts| ==> ts[i].amount > EPSILON && ts[i].price > EPSILON
  }

  /** Every consumed trade but the last is taken in full, and the last completes the target. */
  lemma {:induction false} MatchedIsCapped(ts: seq<Trade>, target: real, n: nat)
    requires n <= |ts| && Usable(ts) && target > EPSILON
    requires forall i :: 0 <= i < n ==> Uncovered(ts, target, i) > EPSILON
    ensures Matched(ts, target, n) == MinR(target, Amounts(ts[..n]))
    ensures n > 0 ==> Matched(ts, target, n) > EPSILON
    ensures forall i :: 0 <= i < n - 1 ==> Take(ts, target, i) == ts[i].amount
  {
    if n > 0 {
      MatchedIsCapped(ts, target, n - 1);
      assert ts[..n][..n - 1] == ts[..n - 1];
      assert Uncovered(ts, target, n - 1) > EPSILON;
      if n > 1 {
        assert ts[..n - 1][..n - 2] == ts[..n - 2];
        assert Uncovered(ts, target, n - 2) == Uncovered(ts, target, n - 1) + ts[n - 2].amount;
      }
    }
  }

  /** What these trades were worth in full. */
  function Value(ts: seq<Trade>): real {
    if ts == [] then 0.0 else Value(ts[..|ts| - 1]) + Worth(ts[|ts| - 1].price, ts[|ts| - 1].amount)
  }

  lemma {:induction false} FullTakesCostTheirValue(ts: seq<Trade>, target: real, n: nat)
    requires n <= |ts| && forall i :: 0 <= i < n ==> Take(ts, target, i) == ts[i].amount
    ensures Cost(ts, target, n) == Value(ts[..n])
  {
    if n > 0 {
      FullTakesCostTheirValue(ts, target, n - 1);
      assert ts[..n][..n - 1] == ts[..n - 1];
    }
  }

  /** The cost: every consumed trade at its own price, in full, but of the last one only what was still uncovered. */
  lemma CostIsExact(ts: seq<Trade>, target: real, n: nat)
    requires 0 < n <= |ts| && Usable(ts) && target > EPSILON
    requires forall i :: 0 <= i < n ==> Uncovered(ts, target, i) > EPSILON
    ensures var last, open := ts[n - 1], target - Amounts(ts[..n - 1]);
            Cost(ts, target, n)
            == Value(ts[..n - 1]) + Worth(last.price, if last.amount <= open then last.amount else open)
  {
    MatchedIsCapped(ts, target, n);
    FullTakesCostTheirValue(ts, target, n - 1);
  }

  function Without(ts: seq<Trade>, k: nat): seq<Trade>
    requires k < |ts|
  {
    ts[..k] + ts[k + 1..]
  }

  /** Each consumed trade counts once in the fees, in the reported result and among the trades that report one. */
  lemma {:induction false} EachTradeCountsOnce(ts: seq<Trade>, k: nat)
    requires k < |ts|
    ensures Fees(ts) == Fees(Without(ts, k)) + ts[k].fee
    ensures Hits(ts) == Hits(Without(ts, k)) + if ts[k].closedPnl.Some? then 1 else 0
    ensures Reported(ts) == Reported(Without(ts, k)) + if ts[k].closedPnl.Some? then ts[k].closedPnl.value else 0.0
  {
    var init, last := ts[..|ts| - 1], |ts| - 1;
    if k == last {
      assert Without(ts, k) == init;
    } else {
      EachTradeCountsOnce(init, k);
      assert Without(ts, k) == Without(init, k) + [ts[last]];
      assert Without(ts, k)[..last - 1] == Without(init, k);
    }
  }

  lemma Scale(a: real, b: real, k: real)
    requires a <= b && k >= 0.0
    ensures Worth(a, k) <= Worth(b, k)
  {}

  /** What the same takes would have cost at one fixed price. */
  function CostAt(price: real, ts: seq<Trade>, target: real, n: nat): real
    requires n <= |ts|
  {
    if n == 0 then 0.0 else CostAt(price, ts, target, n - 1) + Worth(price, Take(ts, target, n - 1))
  }

  lemma Distribute(k: real, x: real, y: real)
    ensures Worth(k, x + y) == Worth(k, x) + Worth(k, y)
  {}

  lemma {:induction false} CostAtIsProportional(price: real, ts: seq<Trade>, target: real, n: nat)
    requires n <= |ts|
    ensures CostAt(price, ts, target, n) == Worth(price, Matched(ts, target, n))
  {
    if n > 0 {
      CostAtIsProportional(price, ts, target, n - 1);
      Distribute(price, Matched(ts, target, n - 1), Take(ts, target, n - 1));
    }
  }

  predicate PricesBetween(ts: seq<Trade>, lo: real, hi: real) {
    forall i :: 0 <= i < |ts| ==> lo <= ts[i].price <= hi
  }

  /** The weighted cost lies between the costs at the extreme prices. */
  lemma {:induction false} CostIsBetween(ts: seq<Trade>, target: real, n: nat, lo: real, hi: real)
    requires n <= |ts| && Usable(ts) && PricesBetween(ts[..n], lo, hi)
    requires forall i :: 0 <= i < n ==> Uncovered(ts, target, i) > EPSILON
    ensures CostAt(lo, ts, target, n) <= Cost(ts, target, n) <= CostAt(hi, ts, target, n)
  {
    if n > 0 {
      assert ts[..n][n - 1] == ts[n - 1];
      assert forall i :: 0 <= i < n - 1 ==> ts[..n - 1][i] == ts[..n][i];
      CostIsBetween(ts, target, n - 1, lo, hi);
      assert Take(ts, target, n - 1) >= 0.0 by { assert Uncovered(ts, target, n - 1) > EPSILON; }
      Scale(lo, ts[n - 1].price, Take(ts, target, n - 1));
      Scale(ts[n - 1].price, hi, Take(ts, target, n - 1));
    }
  }

  lemma QuotientBetween(lo: real, hi: real, c: real, m: real)
    requires m > 0.0 && Worth(lo, m) <= c <= Worth(hi, m)
    ensures lo <= c / m <= hi
  {}

  /** The quantity-weighted price of the consumed prefix. */
  function WeightedPrice(ts: seq<Trade>, target: real): real
    requires ts != [] && Usable(ts) && target > EPSILON
  {
    SomethingMatches(ts, target);
    var n := Consumed(ts, target, 0);
    Cost(ts, target, n) / Matched(ts, target, n)
  }

  lemma SomethingMatches(ts: seq<Trade>, target: real)
    requires ts != [] && Usable(ts) && target > EPSILON
    ensures Matched(ts, target, Consumed(ts, target, 0)) > EPSILON
  {
    assert ts[..0] == [];
    MatchedIsCapped(ts, target, Consumed(ts, target, 0));
  }

  /** The inferred price lies between the smallest and the largest consumed price. */
  lemma InferredPriceIsBetween(ts: seq<Trade>, target: real, lo: real, hi: real)
    requires ts != [] && Usable(ts) && target > EPSILON
    requires PricesBetween(ts[..Consumed(ts, target, 0)], lo, hi)
    ensures Matched(ts, target, Consumed(ts, target, 0)) > EPSILON
    ensures lo <= WeightedPrice(ts, target) <= hi
  {
    var n := Consumed(ts, target, 0);
    SomethingMatches(ts, target);
    CostIsBetween(ts, target, n, lo, hi);
    CostAtIsProportional(lo, ts, target, n);
    CostAtIsProportional(hi, ts, target, n);
    QuotientBetween(lo, hi, Cost(ts, target, n), Matched(ts, target, n));
  }

  // ----- The service's two loops ----------------------------------------------------

  function DirectionalPnl(side: Side, entryPrice: real, price: real, quantity: real): real {
    if side == Long then (price - entryPrice) * quantity else (entryPrice - price) * quantity
  }

  /** A long position gains what the price rose and a short one what it fell, per unit. */
  lemma ResultFollowsThePrice(side: Side, entryPrice: real, price: real, quantity: real)
    ensures var pnl := DirectionalPnl(side, entryPrice, price, quantity);
            && pnl == (if side.Long? then 1.0 else -1.0) * (price - entryPrice) * quantity
            && (quantity > 0.0 && side.Long? ==> (pnl > 0.0 <==> price > entryPrice))
            && (quantity > 0.0 && side.Short? ==> (pnl > 0.0 <==> price < entryPrice))
  {}

  /** The matching loop over candidates that are already in order. */
  method Match(ts: seq<Trade>, target: real)
    returns (n: nat, matched: real, remaining: real, cost: real, fees: real, reported: real, hits: nat)
    requires Usable(ts) && target > EPSILON
    ensures n == Consumed(ts, target, 0)
    ensures matched + remaining == target && matched <= target
    ensures n == |ts| || remaining <= EPSILON
    ensures matched == Matched(ts, target, n) && cost == Cost(ts, target, n)
    ensures fees == Fees(ts[..n]) && reported == Reported(ts[..n]) && hits == Hits(ts[..n])
  {
    n, matched, remaining, cost := 0, 0.0, target, 0.0;
    fees, reported, hits := 0.0, 0.0, 0;
    assert ts[..0] == [];
    while n < |ts|
      invariant n <= |ts| && matched + remaining == target && 0.0 <= remaining
      invariant Consumed(ts, target, 0) == Consumed(ts, target, n)
      invariant remaining == MaxR(0.0, Uncovered(ts, target, n))
      invariant matched == Matched(ts, target, n) && cost == Cost(ts, target, n)
      invariant fees == Fees(ts[..n]) && reported == Reported(ts[..n]) && hits == Hits(ts[..n])
    {
      if remaining <= EPSILON { break; }
      var trade := ts[n];
      var take := MinR(trade.amount, remaining);
      assert take == Take(ts, target, n) && take > EPSILON;
      assert ts[..n + 1][..n] == ts[..n];
      matched := matched + take;
      cost := cost + Worth(trade.price, take);
      fees := fees + trade.fee;
      if trade.closedPnl.Some? {
        reported := reported + trade.closedPnl.value;
        hits := hits + 1;
      }
      remaining := remaining - take;
      n := n + 1;
    }
  }

  /**
   * The inference as a whole. Nothing is inferred for a position that is not closed, has
   * no usable exit trade or no usable quantity; otherwise the price is the weighted price
   * of the consumed prefix, and the result is the exchange's own figure when any consumed
   * trade carries one, else the directional result less fees.
   */
  method InferClose(closed: bool, side: Side, entryPrice: real, quantity: real, trades: seq<Trade>)
    returns (r: Option<Inference>)
    ensures r.None? <==> !closed || Candidates(trades, side) == [] || quantity <= EPSILON
    ensures r.Some? ==>
              var ts := Candidates(trades, side);
              var n := Consumed(ts, quantity, 0);
              && Usable(ts)
              && r.value.closePrice == WeightedPrice(ts, quantity)
              && r.value.realized ==
                 if Hits(ts[..n]) > 0 then Reported(ts[..n])
                 else DirectionalPnl(side, entryPrice, r.value.closePrice, Matched(ts, quantity, n)) - Fees(ts[..n])
    ensures r.Some? ==>
              var ts := Candidates(trades, side);
              forall lo, hi :: PricesBetween(ts[..Consumed(ts, quantity, 0)], lo, hi) ==> lo <= r.value.closePrice <= hi
  {
    if !closed { return None; }
    var ts := Candidates(trades, side);
    if ts == [] || quantity <= EPSILON { return None; }
    CandidatesUsable(trades, side);
    var n, matched, remaining, cost, fees, reported, hits := Match(ts, quantity);
    SomethingMatches(ts, quantity);
    var closePrice := cost / matched;
    var realized := if hits > 0 then reported else DirectionalPnl(side, entryPrice, closePrice, matched) - fees;
    r := Some(Inference(closePrice, realized));
    forall lo, hi | PricesBetween(ts[..n], lo, hi)
      ensures lo <= closePrice <= hi
    {
      InferredPriceIsBetween(ts, quantity, lo, hi);
    }
  }

  lemma CandidatesUsable(trades: seq<Trade>, side: Side)
    ensures Usable(Candidates(trades, side))
  {
    CandidatesSortAndFilter(trades, side);
    var ts := Candidates(trades, side);
    forall i | 0 <= i < |ts| ensures ts[i].amount > EPSILON && ts[i].price > EPSILON {
      assert ts[i] in multiset(ts);
    }
  }
}
