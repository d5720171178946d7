/**
 * Which take-profit rungs of a live position have filled, seen from REST alone.
 *
 * A rung whose exchange order has vanished is a candidate fill; candidates are accepted
 * in ladder order for as long as the observed shrinkage of the position covers at least
 * half of their cumulative nominal quantity.
 */
module PartialTp {
  import opened Common

  datatype LevelStatus = Open | Pending | Triggered | Cancelled

  datatype Level = Level(closePct: real, status: LevelStatus, orderId: Option<string>)

  /** An intermediate rung that is on the exchange and not yet advanced. */
  predicate IsCandidate(levels: seq<Level>, i: nat) {
    && i < |levels| - 1
    && (levels[i].status == Open || levels[i].status == Pending)
    && levels[i].orderId.Some? && levels[i].orderId.value != ""
  }

  predicate Vanished(levels: seq<Level>, openIds: set<string>, i: nat) {
    IsCandidate(levels, i) && levels[i].orderId.value !in openIds
  }

  /** The vanished candidates among the first n rungs, in ladder order. */
  function Filled(levels: seq<Level>, openIds: set<string>, n: nat): (r: seq<nat>)
    requires n <= |levels|
    ensures forall k :: 0 <= k < |r| ==> r[k] < n && Vanished(levels, openIds, r[k])
    ensures forall j, k :: 0 <= j < k < |r| ==> r[j] < r[k]
    ensures forall i :: 0 <= i < n && Vanished(levels, openIds, i) ==> i in r
  {
    if n == 0 then []
    else Filled(levels, openIds, n - 1) + if Vanished(levels, openIds, n - 1) then [n - 1] else []
  }

  function Nominal(original: real, level: Level): real {
    original * (level.closePct / 100.0)
  }

  /** The nominal quantities of the given rungs, summed. */
  function Cumulative(original: real, levels: seq<Level>, rungs: seq<nat>): real
    requires forall k :: 0 <= k < |rungs| ==> rungs[k] < |levels|
  {
    if rungs == [] then 0.0
    else Cumulative(original, levels, rungs[..|rungs| - 1]) + Nominal(original, levels[rungs[|rungs| - 1]])
  }

  function ObservedClosed(original: real, live: real): real {
    MaxR(original - live, 0.0)
  }

  predicate Covered(original: real, live: real, nominal: real) {
    ObservedClosed(original, live) + EPSILON >= nominal * 0.5
  }

  /** A prefix of the filled rungs that ends at the first rung not covered. */
  predicate IsAccepted(original: real, live: real, levels: seq<Level>, filled: seq<nat>, accepted: seq<nat>)
    requires forall k :: 0 <= k < |filled| ==> filled[k] < |levels|
  {
    && accepted <= filled
    && (forall n :: 1 <= n <= |accepted| ==> Covered(original, live, Cumulative(original, levels, filled[..n])))
    && (|accepted| < |filled|
        ==> !Covered(original, live, Cumulative(original, levels, filled[..|accepted| + 1])))
  }

  method AcceptFills(levels: seq<Level>, openIds: set<string>, original: real, live: real)
    returns (accepted: seq<nat>)
    ensures IsAccepted(original, live, levels, Filled(levels, openIds, |levels|), accepted)
  {
    var filled: seq<nat> := [];
    for i := 0 to |levels|
      invariant filled == Filled(levels, openIds, i)
    {
      if i != |levels| - 1 && (levels[i].status == Open || levels[i].status == Pending)
         && levels[i].orderId.Some? && levels[i].orderId.value != ""
         && levels[i].orderId.value !in openIds {
        filled := filled + [i];
      }
    }
    accepted := Accept(levels, filled, original, live);
  }

  method Accept(levels: seq<Level>, filled: seq<nat>, original: real, live: real) returns (accepted: seq<nat>)
    requires forall k :: 0 <= k < |filled| ==> filled[k] < |levels|
    ensures IsAccepted(original, live, levels, filled, accepted)
  {
    var observedClosed := MaxR(original - live, 0.0);
    accepted := [];
    var cumulative := 0.0;
    var k := 0;
    while k < |filled|
      invariant 0 <= k <= |filled| && accepted == filled[..k]
      invariant cumulative == Cumulative(original, levels, filled[..k])
      invariant forall n :: 1 <= n <= k ==> Covered(original, live, Cumulative(original, levels, filled[..n]))
    {
      assert filled[..k + 1][..k] == filled[..k];
      cumulative := cumulative + Nominal(original, levels[filled[k]]);
      if observedClosed + EPSILON >= cumulative * 0.5 {
        accepted := accepted + [filled[k]];
      } else {
        break;
      }
      k := k + 1;
    }
  }

  // ----- What acceptance means ------------------------------------------------------

  predicate Sensible(original: real, levels: seq<Level>) {
    original >= 0.0 && forall i :: 0 <= i < |levels| ==> levels[i].closePct >= 0.0
  }

  lemma NominalNonNegative(original: real, level: Level)
    requires original >= 0.0 && level.closePct >= 0.0
    ensures Nominal(original, level) >= 0.0
  {}

  lemma {:induction false} CumulativeGrows(original: real, levels: seq<Level>, rungs: seq<nat>, m: nat, n: nat)
    requires Sensible(original, levels) && m <= n <= |rungs|
    requires forall k :: 0 <= k < |rungs| ==> rungs[k] < |levels|
    ensures Cumulative(original, levels, rungs[..m]) <= Cumulative(original, levels, rungs[..n])
    decreases n
  {
    if m < n {
      CumulativeGrows(original, levels, rungs, m, n - 1);
      assert rungs[..n][..n - 1] == rungs[..n - 1];
      NominalNonNegative(original, levels[rungs[n - 1]]);
    }
  }

  /**
   * Acceptance is exact: a filled rung is accepted if and only if the cumulative nominal
   * up to and including it is at most twice the observed close plus the tolerance.
   */
  lemma AcceptanceIsExact(original: real, live: real, levels: seq<Level>, filled: seq<nat>,
                          accepted: seq<nat>, k: nat)
    requires Sensible(original, levels) && k < |filled|
    requires forall j :: 0 <= j < |filled| ==> filled[j] < |levels|
    requires IsAccepted(original, live, levels, filled, accepted)
    ensures k < |accepted|
       <==> Cumulative(original, levels, filled[..k + 1]) <= 2.0 * (ObservedClosed(original, live) + EPSILON)
  {
    if k >= |accepted| {
      CumulativeGrows(original, levels, filled, |accepted| + 1, k + 1);
    }
  }

  /** What these rungs were to close together, in percent of the position. */
  function Percent(levels: seq<Level>, rungs: seq<nat>): real
    requires forall k :: 0 <= k < |rungs| ==> rungs[k] < |levels|
  {
    if rungs == [] then 0.0 else Percent(levels, rungs[..|rungs| - 1]) + levels[rungs[|rungs| - 1]].closePct
  }

  function PartOf(original: real, percent: real): real {
    original * percent / 100.0
  }

  lemma PartsAdd(original: real, x: real, y: real)
    ensures PartOf(original, x + y) == PartOf(original, x) + PartOf(original, y)
    ensures PartOf(original, 100.0) == original && PartOf(original, 0.0) == 0.0
  {}

  lemma NominalIsAPart(original: real, level: Level)
    ensures Nominal(original, level) == PartOf(original, level.closePct)
  {}

  /** The nominal quantities are those percentages of the original quantity; a full ladder is all of it. */
  lemma {:induction false} NominalIsThePercentage(original: real, levels: seq<Level>, rungs: seq<nat>)
    requires forall k :: 0 <= k < |rungs| ==> rungs[k] < |levels|
    ensures Cumulative(original, levels, rungs) == PartOf(original, Percent(levels, rungs))
    ensures Percent(levels, rungs) == 100.0 ==> Cumulative(original, levels, rungs) == original
  {
    PartsAdd(original, 0.0, 0.0);
    if rungs != [] {
      var init, last := rungs[..|rungs| - 1], levels[rungs[|rungs| - 1]];
      NominalIsThePercentage(original, levels, init);
      NominalIsAPart(original, last);
      PartsAdd(original, Percent(levels, init), last.closePct);
    }
  }

  /** Half of that percentage of the position is covered by what is gone from it, up to the tolerance. */
  predicate HalfIsGone(original: real, live: real, percent: real) {
    PartOf(original, percent) <= 2.0 * ((if live < original then original - live else 0.0) + EPSILON)
  }

  /**
   * Acceptance in the exchange's own figures: a vanished rung is accepted if and only if half
   * of the percentage that the rungs up to it were to close is gone from the position.
   */
  lemma AcceptanceInPercent(original: real, live: real, levels: seq<Level>, filled: seq<nat>, accepted: seq<nat>,
                            k: nat)
    requires Sensible(original, levels) && k < |filled|
    requires forall j :: 0 <= j < |filled| ==> filled[j] < |levels|
    requires IsAccepted(original, live, levels, filled, accepted)
    ensures k < |accepted| <==> HalfIsGone(original, live, Percent(levels, filled[..k + 1]))
  {
    AcceptanceIsExact(original, live, levels, filled, accepted, k);
    NominalIsThePercentage(original, levels, filled[..k + 1]);
  }

  /** Which rungs are taken as filled: all but the last, still waiting, with an order that the exchange lost. */
  lemma WhichRungsVanished(levels: seq<Level>, openIds: set<string>, i: nat)
    ensures i in Filled(levels, openIds, |levels|)
       <==> (i + 1 < |levels| && levels[i].status in {Open, Pending} && levels[i].orderId.Some?
             && levels[i].orderId.value != "" && levels[i].orderId.value !in openIds)
  {
    assert Vanished(levels, openIds, i) <==> i in Filled(levels, openIds, |levels|);
  }

  /** The exchange executes a nominal quantity truncated to its step. */
  function Executed(nominal: real, step: real): real
    requires step > 0.0
  {
    (nominal / step).Floor as real * step
  }

  function TotalExecuted(original: real, levels: seq<Level>, rungs: seq<nat>, step: real): real
    requires step > 0.0
    requires forall k :: 0 <= k < |rungs| ==> rungs[k] < |levels|
  {
    if rungs == [] then 0.0
    else TotalExecuted(original, levels, rungs[..|rungs| - 1], step)
         + Executed(Nominal(original, levels[rungs[|rungs| - 1]]), step)
  }

  lemma FloorKeepsHalf(x: real)
    requires x >= 1.0
    ensures x.Floor as real >= x * 0.5
  {
    assert x.Floor as real + 1.0 > x;
    assert x.Floor >= 1;
  }

  lemma ScaleUp(a: real, b: real, k: real)
    requires a >= b && k > 0.0
    ensures a * k >= b * k
  {}

  lemma QuotientAtLeastOne(nominal: real, step: real)
    requires 0.0 < step <= nominal
    ensures nominal / step >= 1.0
    ensures (nominal / step) * 0.5 * step == nominal * 0.5
  {}

  lemma TruncationKeepsHalf(nominal: real, step: real)
    requires 0.0 < step <= nominal
    ensures Executed(nominal, step) >= nominal * 0.5
  {
    QuotientAtLeastOne(nominal, step);
    FloorKeepsHalf(nominal / step);
    ScaleUp((nominal / step).Floor as real, (nominal / step) * 0.5, step);
  }

  lemma {:induction false} ExecutedKeepsHalf(original: real, levels: seq<Level>, rungs: seq<nat>, step: real)
    requires step > 0.0
    requires forall k :: 0 <= k < |rungs| ==> rungs[k] < |levels| && Nominal(original, levels[rungs[k]]) >= step
    ensures TotalExecuted(original, levels, rungs, step) >= Cumulative(original, levels, rungs) * 0.5
  {
    if rungs != [] {
      var init, last := rungs[..|rungs| - 1], rungs[|rungs| - 1];
      assert forall k :: 0 <= k < |init| ==> init[k] == rungs[k];
      ExecutedKeepsHalf(original, levels, init, step);
      TruncationKeepsHalf(Nominal(original, levels[last]), step);
    }
  }

  /**
   * Tolerance to step rounding: if every vanished rung really executed its nominal
   * truncated to the step, and each nominal is at least one step, all are accepted,
   * whatever earlier rungs had already closed.
   */
  lemma RoundedFillsAreAccepted(original: real, live: real, levels: seq<Level>, filled: seq<nat>,
                                accepted: seq<nat>, step: real, closedBefore: real)
    requires Sensible(original, levels) && step > 0.0 && closedBefore >= 0.0
    requires forall k :: 0 <= k < |filled| ==> filled[k] < |levels| && Nominal(original, levels[filled[k]]) >= step
    requires live == original - closedBefore - TotalExecuted(original, levels, filled, step)
    requires IsAccepted(original, live, levels, filled, accepted)
    ensures accepted == filled
  {
    ExecutedKeepsHalf(original, levels, filled, step);
    assert filled[..|filled|] == filled;
    if |accepted| < |filled| {
      AcceptanceIsExact(original, live, levels, filled, accepted, |filled| - 1);
    }
  }

  /**
   * The corroboration against cancelled orders, exactly: the first vanished rung is
   * turned down if and only if its nominal exceeds twice the close observed so far plus
   * the tolerance. Nothing else about the rung matters.
   */
  lemma CancelledRungIsRejectedIff(original: real, live: real, levels: seq<Level>, filled: seq<nat>,
                                   accepted: seq<nat>)
    requires Sensible(original, levels) && filled != []
    requires forall k :: 0 <= k < |filled| ==> filled[k] < |levels|
    requires IsAccepted(original, live, levels, filled, accepted)
    ensures accepted == []
       <==> Nominal(original, levels[filled[0]]) > 2.0 * (ObservedClosed(original, live) + EPSILON)
  {
    AcceptanceIsExact(original, live, levels, filled, accepted, 0);
    assert filled[..1][..0] == [] && filled[..1][0] == filled[0];
  }

  /** A position that did not shrink confirms no rung of more than twice the tolerance. */
  lemma NoShrinkNoFill(original: real, live: real, levels: seq<Level>, filled: seq<nat>, accepted: seq<nat>)
    requires Sensible(original, levels) && filled != [] && live >= original
    requires forall k :: 0 <= k < |filled| ==> filled[k] < |levels|
    requires IsAccepted(original, live, levels, filled, accepted)
    requires Nominal(original, levels[filled[0]]) > 2.0 * EPSILON
    ensures accepted == []
  {
    CancelledRungIsRejectedIff(original, live, levels, filled, accepted);
  }

  /**
   * The rejection of a cancelled order does not survive an earlier fill: after the first
   * rung closed half of the position, a second rung that was merely cancelled counts as
   * filled, because the shrinkage of the first is counted again.
   */
  lemma CancelledRungCanPassAfterAnEarlierFill()
    returns (levels: seq<Level>, openIds: set<string>, original: real, live: real)
    ensures Sensible(original, levels) && |levels| == 3
    ensures levels[0].status == Triggered && live == original - Nominal(original, levels[0])
    ensures Filled(levels, openIds, |levels|) == [1]
    ensures IsAccepted(original, live, levels, [1], [1])
  {
    levels, openIds, original, live := [
      Level(50.0, Triggered, Some("a")), Level(25.0, Open, Some("b")), Level(25.0, Open, Some("c"))
    ], {"c"}, 1.0, 0.5;
    OnlySecondVanished(levels, openIds);
    SingleRungAccepted(original, live, levels, 1);
  }

  lemma OnlySecondVanished(levels: seq<Level>, openIds: set<string>)
    requires |levels| == 3 && levels[0].status == Triggered && levels[1].status == Open
    requires levels[1].orderId.Some? && levels[1].orderId.value == "b" && openIds == {"c"}
    ensures Filled(levels, openIds, 3) == [1]
  {
    assert "b"[0] != "c"[0];
    assert !Vanished(levels, openIds, 0) && Vanished(levels, openIds, 1) && !Vanished(levels, openIds, 2);
    FilledUpTo(levels, openIds, 0);
    FilledUpTo(levels, openIds, 1);
    FilledUpTo(levels, openIds, 2);
  }

  lemma FilledUpTo(levels: seq<Level>, openIds: set<string>, n: nat)
    requires n < |levels|
    ensures Filled(levels, openIds, 0) == []
    ensures var before := Filled(levels, openIds, n);
            Filled(levels, openIds, n + 1) == if Vanished(levels, openIds, n) then before + [n] else before
  {}

  lemma SingleRungAccepted(original: real, live: real, levels: seq<Level>, i: nat)
    requires i < |levels| && Covered(original, live, Nominal(original, levels[i]))
    ensures IsAccepted(original, live, levels, [i], [i])
  {
    SingleRung(original, levels, i);
  }

  lemma SingleRung(original: real, levels: seq<Level>, i: nat)
    requires i < |levels|
    ensures Cumulative(original, levels, [i][..1]) == Nominal(original, levels[i])
  {
    assert [i][..1] == [i] && [i][..0] == [];
  }
}
