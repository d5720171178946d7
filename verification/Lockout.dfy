/**
 * Second-factor enrolment with a failure lockout.
 *
 * The authenticator factor and the e-mail factor run the same machine: a failed code
 * raises a counter, the counter reaching its limit starts a cool-down and resets it,
 * and no code is looked at while the cool-down lasts. Times are integers; whether a
 * code is right is an input.
 */
module Lockout {
  import opened Common

  datatype Policy = Policy(maxAttempts: int, lockout: int) {
    predicate Valid() { maxAttempts >= 1 && lockout >= 1 }
  }

  datatype Enrollment = Enrollment(failed: int, lockedUntil: Option<int>, confirmedAt: Option<int>)

  datatype Verdict = NotEnrolled | Locked(retryAfter: int) | Accepted | Refused

  const FreshEnrollment := Enrollment(0, None, None)

  predicate Blocked(e: Enrollment, now: int) {
    e.lockedUntil.Some? && e.lockedUntil.value > now
  }

  /** The counter and the cool-down after a code was checked. */
  function Settle(e: Enrollment, ok: bool, now: int, policy: Policy): Enrollment {
    if ok then e.(failed := 0, lockedUntil := None)
    else if e.failed + 1 >= policy.maxAttempts then
      e.(failed := 0, lockedUntil := Some(now + policy.lockout))
    else e.(failed := e.failed + 1)
  }

  /** A right code confirms a pending enrolment when this call may confirm. */
  function Confirm(e: Enrollment, ok: bool, mayConfirm: bool, now: int): Enrollment {
    if ok && mayConfirm && e.confirmedAt.None? then e.(confirmedAt := Some(now)) else e
  }

  /** The cool-down is not over. */
  predicate Until(time: Option<int>, now: int) {
    time.Some? && now < time.value
  }

  /** A right code clears the counter and the cool-down. */
  predicate Cleared(e: Enrollment) {
    e.failed == 0 && e.lockedUntil.None?
  }

  /** A wrong one counts, and the last one allowed starts a cool-down and the count anew. */
  predicate OneMoreFailure(was: Enrollment, e: Enrollment, now: int, policy: Policy) {
    if was.failed + 1 < policy.maxAttempts then e.failed == was.failed + 1 && e.lockedUntil == was.lockedUntil
    else e.failed == 0 && e.lockedUntil == Some(now + policy.lockout)
  }

  /** The stored counter of every enrolment this code ever wrote. */
  predicate Sane(row: Option<Enrollment>, policy: Policy) {
    row.Some? ==> 0 <= row.value.failed < policy.maxAttempts
  }

  /** The authenticator factor of one user, with its one-time recovery codes. */
  class TotpFactor {
    const policy: Policy
    var row: Option<Enrollment>
    var unusedRecovery: set<string>

    ghost predicate Valid()
      reads this
    {
      policy.Valid() && Sane(row, policy)
    }

    constructor (policy: Policy)
      requires policy.Valid()
      ensures Valid() && this.policy == policy && row == None && unusedRecovery == {}
    {
      this.policy := policy;
      row := None;
      unusedRecovery := {};
    }

    /** A fresh secret: the enrolment is pending again, the failure count is kept. */
    method Enroll(freshCodes: set<string>)
      requires Valid()
      modifies this
      ensures Valid() && unusedRecovery == freshCodes
      ensures row == Apply(old(row), Call.Enroll, policy)
      ensures row.Some? && row.value.confirmedAt.None?
      ensures if old(row).None? then row.value.failed == 0 && row.value.lockedUntil.None?
              else row.value.failed == old(row).value.failed && row.value.lockedUntil == old(row).value.lockedUntil
    {
      if row.None? { row := Some(FreshEnrollment); }
      row := Some(row.value.(confirmedAt := None));
      unusedRecovery := freshCodes;
    }

    method Verify(now: int, code: string, codeOk: bool, allowRecovery: bool) returns (verdict: Verdict)
      requires Valid()
      modifies this
      ensures Valid()
      ensures verdict.NotEnrolled? <==> old(row).None?
      ensures verdict.Locked? <==> old(row).Some? && Blocked(old(row).value, now)
      ensures verdict.Locked? ==> verdict.retryAfter == old(row).value.lockedUntil.value - now
      ensures verdict.NotEnrolled? || verdict.Locked? ==> row == old(row) && unusedRecovery == old(unusedRecovery)
      ensures verdict.Accepted? <==>
                (old(row).Some? && !Blocked(old(row).value, now)
                && (codeOk || RecoveryApplies(old(row).value, allowRecovery, code, old(unusedRecovery))))
      ensures verdict.Accepted? || verdict.Refused?
              ==> row == Some(Settle(Confirm(old(row).value, codeOk, true, now), verdict.Accepted?, now, policy))
      ensures !verdict.Accepted? ==> row == Apply(old(row), WrongCode(now), policy)
      ensures unusedRecovery
           == if verdict.Accepted? && !codeOk then old(unusedRecovery) - {code} else old(unusedRecovery)
      ensures verdict.Locked? <==> old(row).Some? && Until(old(row).value.lockedUntil, now)
      ensures verdict.Accepted?
         <==> (old(row).Some? && !Until(old(row).value.lockedUntil, now)
               && (codeOk || (allowRecovery && old(row).value.confirmedAt.Some? && code in old(unusedRecovery))))
      ensures verdict.Accepted? ==> row.Some? && Cleared(row.value)
      ensures verdict.Refused? ==> row.Some? && OneMoreFailure(old(row).value, row.value, now, policy)
      ensures verdict.Accepted? || verdict.Refused?
              ==> row.Some? && row.value.confirmedAt == if codeOk && old(row).value.confirmedAt.None? then Some(now)
                                                        else old(row).value.confirmedAt
    {
      if row.None? { return NotEnrolled; }
      var e := row.value;
      if e.lockedUntil.Some? && e.lockedUntil.value > now { return Locked(e.lockedUntil.value - now); }
      var ok := codeOk;
      if ok && e.confirmedAt.None? { e := e.(confirmedAt := Some(now)); }
      if !ok && allowRecovery && e.confirmedAt.Some? {
        ok := code in unusedRecovery;
        if ok { unusedRecovery := unusedRecovery - {code}; }
      }
      if ok {
        e := e.(failed := 0, lockedUntil := None);
      } else {
        e := e.(failed := e.failed + 1);
        if e.failed >= policy.maxAttempts {
          e := e.(lockedUntil := Some(now + policy.lockout), failed := 0);
        }
      }
      row := Some(e);
      verdict := if ok then Accepted else Refused;
    }

    method Disable()
      requires Valid()
      modifies this
      ensures Valid() && row == None && unusedRecovery == {}
    {
      row := None;
      unusedRecovery := {};
    }
  }

  /** The e-mail factor: no recovery codes, and only an enrolment check may confirm. */
  class EmailFactor {
    const policy: Policy
    var row: Option<Enrollment>

    ghost predicate Valid()
      reads this
    {
      policy.Valid() && Sane(row, policy)
    }

    constructor (policy: Policy)
      requires policy.Valid()
      ensures Valid() && this.policy == policy && row == None
    {
      this.policy := policy;
      row := None;
    }

    /** Asking for an enrolment code touches an existing row not at all. */
    method SendEnrollmentCode()
      requires Valid()
      modifies this
      ensures Valid() && row == Apply(old(row), RequestEmailCode, policy)
      ensures row == if old(row).Some? then old(row) else Some(Enrollment(0, None, None))
    {
      if row.None? { row := Some(FreshEnrollment); }
    }

    method Verify(now: int, codeOk: bool, confirmEnrollment: bool) returns (verdict: Verdict)
      requires Valid()
      modifies this
      ensures Valid()
      ensures verdict.NotEnrolled? <==> old(row).None?
      ensures verdict.Locked? <==> old(row).Some? && Blocked(old(row).value, now)
      ensures verdict.NotEnrolled? || verdict.Locked? ==> row == old(row)
      ensures verdict.Accepted? <==> codeOk && old(row).Some? && !Blocked(old(row).value, now)
      ensures verdict.Accepted? || verdict.Refused?
              ==> row == Some(Settle(Confirm(old(row).value, codeOk, confirmEnrollment, now), codeOk, now, policy))
      ensures !verdict.Accepted? ==> row == Apply(old(row), WrongCode(now), policy)
      ensures verdict.Locked? <==> old(row).Some? && Until(old(row).value.lockedUntil, now)
      ensures verdict.Accepted? ==> row.Some? && Cleared(row.value)
      ensures verdict.Refused? ==> row.Some? && OneMoreFailure(old(row).value, row.value, now, policy)
      ensures verdict.Accepted? || verdict.Refused?
              ==> row.Some? && row.value.confirmedAt
                               == if codeOk && confirmEnrollment && old(row).value.confirmedAt.None? then Some(now)
                                  else old(row).value.confirmedAt
    {
      if row.None? { return NotEnrolled; }
      var e := row.value;
      if e.lockedUntil.Some? && e.lockedUntil.value > now { return Locked(e.lockedUntil.value - now); }
      if codeOk && confirmEnrollment && e.confirmedAt.None? { e := e.(confirmedAt := Some(now)); }
      if codeOk {
        e := e.(failed := 0, lockedUntil := None);
      } else {
        e := e.(failed := e.failed + 1);
        if e.failed >= policy.maxAttempts {
          e := e.(lockedUntil := Some(now + policy.lockout), failed := 0);
        }
      }
      row := Some(e);
      verdict := if codeOk then Accepted else Refused;
    }

    method Disable()
      requires Valid()
      modifies this
      ensures Valid() && row == None
    {
      row := None;
    }
  }

  function Enrolled(row: Option<Enrollment>): Option<Enrollment> {
    if row.None? then Some(FreshEnrollment) else Some(row.value.(confirmedAt := None))
  }

  predicate RecoveryApplies(e: Enrollment, allowRecovery: bool, code: string, unused: set<string>) {
    allowRecovery && e.confirmedAt.Some? && code in unused
  }

  // ----- Runs without a success and without a disable ------------------------------

  /** One call of such a run: a wrong code at some time, or another enrolment request. */
  datatype Call = WrongCode(now: int) | Enroll | RequestEmailCode

  function Apply(row: Option<Enrollment>, call: Call, policy: Policy): Option<Enrollment> {
    match call
    case Enroll => Enrolled(row)
    case RequestEmailCode => if row.None? then Some(FreshEnrollment) else row
    case WrongCode(now) =>
      if row.None? || Blocked(row.value, now) then row else Some(Settle(row.value, false, now, policy))
  }

  function After(row: Option<Enrollment>, calls: seq<Call>, policy: Policy): Option<Enrollment> {
    if calls == [] then row
    else Apply(After(row, calls[..|calls| - 1], policy), calls[|calls| - 1], policy)
  }

  /** The times at which a code was actually compared, in call order. */
  function Checked(row: Option<Enrollment>, calls: seq<Call>, policy: Policy): seq<int> {
    if calls == [] then []
    else
      var earlier := Checked(row, calls[..|calls| - 1], policy);
      var at := After(row, calls[..|calls| - 1], policy);
      var call := calls[|calls| - 1];
      if Compares(at, call) then earlier + [call.now] else earlier
  }

  predicate Compares(row: Option<Enrollment>, call: Call) {
    call.WrongCode? && row.Some? && !Blocked(row.value, call.now)
  }

  predicate ClockMonotone(calls: seq<Call>) {
    forall i, j :: 0 <= i < j < |calls| && calls[i].WrongCode? && calls[j].WrongCode?
      ==> calls[i].now <= calls[j].now
  }

  predicate Sorted(ts: seq<int>) {
    forall i, j :: 0 <= i < j < |ts| ==> ts[i] <= ts[j]
  }

  predicate AllAtMost(ts: seq<int>, now: int) {
    forall i :: 0 <= i < |ts| ==> ts[i] <= now
  }

  /** maxAttempts checks in a row always straddle a cool-down. */
  predicate Spaced(ts: seq<int>, policy: Policy)
    requires policy.Valid()
  {
    forall i, j :: 0 <= i && j == i + policy.maxAttempts < |ts| ==> ts[j] >= ts[i] + policy.lockout
  }

  /** The check that started the latest cool-down lies exactly `failed` checks back. */
  predicate CoolDownRecorded(ts: seq<int>, row: Option<Enrollment>, policy: Policy) {
    if row.None? then ts == []
    else
      var trigger := |ts| - row.value.failed - 1;
      0 <= trigger < |ts| ==> row.value.lockedUntil == Some(ts[trigger] + policy.lockout)
  }

  lemma {:induction false} CheckedTimesAreCallTimes(row: Option<Enrollment>, calls: seq<Call>, policy: Policy)
    ensures forall t :: t in Checked(row, calls, policy) ==> WrongCode(t) in calls
  {
    if calls != [] { CheckedTimesAreCallTimes(row, calls[..|calls| - 1], policy); }
  }

  /** What a run keeps about the codes compared so far and the row they left. */
  predicate Throttled(ts: seq<int>, row: Option<Enrollment>, policy: Policy)
    requires policy.Valid()
  {
    Sane(row, policy) && Sorted(ts) && Spaced(ts, policy) && CoolDownRecorded(ts, row, policy)
  }

  /** A call that compares no code leaves counter and cool-down as they are. */
  lemma UncomparedCall(ts: seq<int>, row: Option<Enrollment>, call: Call, policy: Policy)
    requires policy.Valid() && Throttled(ts, row, policy) && !Compares(row, call)
    ensures Throttled(ts, Apply(row, call, policy), policy)
  {
    var after := Apply(row, call, policy);
    assert row.None? ==> ts == [];
    assert row.Some? ==> after.Some? && after.value.(confirmedAt := row.value.confirmedAt) == row.value;
  }

  lemma OneMoreCall(row: Option<Enrollment>, calls: seq<Call>, policy: Policy)
    requires calls != []
    ensures var init, call := calls[..|calls| - 1], calls[|calls| - 1];
            var at := After(row, init, policy);
            After(row, calls, policy) == Apply(at, call, policy)
            && Checked(row, calls, policy) == Checked(row, init, policy) + if Compares(at, call) then [call.now] else []
  {}

  lemma {:induction false} RunInvariant(row: Option<Enrollment>, calls: seq<Call>, policy: Policy)
    requires policy.Valid() && Sane(row, policy) && ClockMonotone(calls)
    ensures Throttled(Checked(row, calls, policy), After(row, calls, policy), policy)
  {
    if calls != [] {
      var init, call := calls[..|calls| - 1], calls[|calls| - 1];
      RunInvariant(row, init, policy);
      OneMoreCall(row, calls, policy);
      var at, ts := After(row, init, policy), Checked(row, init, policy);
      if Compares(at, call) {
        CheckedTimesArePast(row, calls, policy);
        ExtendSpacing(ts, at, call.now, policy);
      } else {
        UncomparedCall(ts, at, call, policy);
        assert ts + [] == ts;
      }
    }
  }

  lemma CheckedTimesArePast(row: Option<Enrollment>, calls: seq<Call>, policy: Policy)
    requires calls != [] && calls[|calls| - 1].WrongCode? && ClockMonotone(calls)
    ensures AllAtMost(Checked(row, calls[..|calls| - 1], policy), calls[|calls| - 1].now)
  {
    var init := calls[..|calls| - 1];
    var ts := Checked(row, init, policy);
    CheckedTimesAreCallTimes(row, init, policy);
    forall k | 0 <= k < |ts| ensures ts[k] <= calls[|calls| - 1].now {
      assert ts[k] in ts;
      var i :| 0 <= i < |init| && init[i] == WrongCode(ts[k]);
      assert calls[i] == WrongCode(ts[k]);
    }
  }

  lemma ExtendSpacing(ts: seq<int>, at: Option<Enrollment>, now: int, policy: Policy)
    requires policy.Valid() && Sane(at, policy) && at.Some? && !Blocked(at.value, now)
    requires Sorted(ts) && Spaced(ts, policy) && CoolDownRecorded(ts, at, policy)
    requires AllAtMost(ts, now)
    ensures Sorted(ts + [now]) && Spaced(ts + [now], policy)
    ensures Sane(Some(Settle(at.value, false, now, policy)), policy)
    ensures CoolDownRecorded(ts + [now], Some(Settle(at.value, false, now, policy)), policy)
  {
    var i := |ts| - policy.maxAttempts;
    if i >= 0 {
      var trigger := |ts| - at.value.failed - 1;
      assert i <= trigger;
      assert now >= ts[trigger] + policy.lockout;
    }
  }

  /** Stored counters stay below the limit along every run; enrolling again resets nothing. */
  lemma FailuresStayBelowLimit(row: Option<Enrollment>, calls: seq<Call>, policy: Policy)
    requires policy.Valid() && Sane(row, policy) && ClockMonotone(calls)
    ensures var at := After(row, calls, policy);
            at.Some? ==> 0 <= at.value.failed < policy.maxAttempts
    ensures var at := After(row, calls, policy);
            at.Some? ==> Enrolled(at).value.failed == at.value.failed
                         && Enrolled(at).value.lockedUntil == at.value.lockedUntil
  {
    RunInvariant(row, calls, policy);
  }

  // ----- The rate bound -------------------------------------------------------------

  lemma {:induction false} SpacingAccumulates(ts: seq<int>, i: nat, k: nat, policy: Policy)
    requires policy.Valid() && Spaced(ts, policy)
    requires i + k * policy.maxAttempts < |ts|
    requires k * policy.maxAttempts >= 0
    ensures ts[i + k * policy.maxAttempts] >= ts[i] + k * policy.lockout
  {
    if k > 0 {
      assert k * policy.maxAttempts == (k - 1) * policy.maxAttempts + policy.maxAttempts;
      assert k * policy.lockout == (k - 1) * policy.lockout + policy.lockout;
      assert (k - 1) * policy.maxAttempts >= 0;
      SpacingAccumulates(ts, i, k - 1, policy);
      var m := i + (k - 1) * policy.maxAttempts;
      assert ts[m + policy.maxAttempts] >= ts[m] + policy.lockout;
    }
  }

  /** How many of these times fall in the closed span from lo to hi. */
  function Within(ts: seq<int>, lo: int, hi: int): nat {
    if ts == [] then 0
    else Within(ts[..|ts| - 1], lo, hi) + if lo <= ts[|ts| - 1] <= hi then 1 else 0
  }

  /** In an ascending sequence the times inside a span are consecutive. */
  lemma {:induction false} WithinIsARun(ts: seq<int>, lo: int, hi: int) returns (from: nat)
    requires Sorted(ts)
    ensures from + Within(ts, lo, hi) <= |ts|
    ensures forall i :: from <= i < from + Within(ts, lo, hi) ==> lo <= ts[i] <= hi
    ensures forall i :: from + Within(ts, lo, hi) <= i < |ts| ==> ts[i] > hi || ts[i] < lo
    ensures Within(ts, lo, hi) == 0 || forall i :: from + Within(ts, lo, hi) <= i < |ts| ==> ts[i] > hi
  {
    if ts == [] {
      from := 0;
    } else {
      var init, last := ts[..|ts| - 1], ts[|ts| - 1];
      from := WithinIsARun(init, lo, hi);
      if lo <= last <= hi {
        if Within(init, lo, hi) == 0 {
          from := |init|;
        } else {
          assert from + Within(init, lo, hi) == |init|;
        }
      }
    }
  }

  lemma ManyPeriods(n: int, d: nat, policy: Policy)
    requires policy.Valid()
    requires n > policy.maxAttempts * (d / policy.lockout + 1)
    ensures var k := d / policy.lockout + 1;
            k >= 1 && 0 <= k * policy.maxAttempts < n && k * policy.lockout > d
  {
    var k := d / policy.lockout + 1;
    assert k * policy.maxAttempts == policy.maxAttempts * k;
    assert d == (d / policy.lockout) * policy.lockout + d % policy.lockout;
    assert k * policy.lockout == (d / policy.lockout) * policy.lockout + policy.lockout;
  }

  /**
   * The throttle: in a run with no success and no disable, any span of length d sees at
   * most maxAttempts * (d / lockout + 1) codes compared, however often the user enrols
   * again in between.
   */
  lemma ThrottleBound(row: Option<Enrollment>, calls: seq<Call>, policy: Policy, lo: int, d: nat)
    requires policy.Valid() && Sane(row, policy) && ClockMonotone(calls)
    ensures Within(Checked(row, calls, policy), lo, lo + d) <= policy.maxAttempts * (d / policy.lockout + 1)
  {
    RunInvariant(row, calls, policy);
    var ts := Checked(row, calls, policy);
    var n := Within(ts, lo, lo + d);
    if n > policy.maxAttempts * (d / policy.lockout + 1) {
      var from := WithinIsARun(ts, lo, lo + d);
      ManyPeriods(n, d, policy);
      var k := d / policy.lockout + 1;
      SpacingAccumulates(ts, from, k, policy);
      assert false;
    }
  }

  /** Wrong codes one after the other at one instant. */
  function Burst(n: nat, now: int): seq<Call> {
    if n == 0 then [] else Burst(n - 1, now) + [WrongCode(now)]
  }

  lemma BurstStep(n: nat, now: int, policy: Policy)
    requires n > 0
    ensures var row, before := Some(FreshEnrollment), Burst(n - 1, now);
            var at := After(row, before, policy);
            After(row, Burst(n, now), policy) == Apply(at, WrongCode(now), policy)
            && (Compares(at, WrongCode(now))
                ==> Checked(row, Burst(n, now), policy) == Checked(row, before, policy) + [now])
  {
    assert Burst(n, now)[..|Burst(n, now)| - 1] == Burst(n - 1, now);
  }

  lemma OneMoreWithin(ts: seq<int>, now: int)
    ensures Within(ts + [now], now, now) == Within(ts, now, now) + 1
  {
    assert (ts + [now])[..|ts|] == ts;
  }

  /** The bound is met: maxAttempts wrong codes at one instant are all compared. */
  lemma {:induction false} BoundIsTight(policy: Policy, now: int, n: nat)
    requires policy.Valid() && n <= policy.maxAttempts
    ensures Within(Checked(Some(FreshEnrollment), Burst(n, now), policy), now, now) == n
    ensures var at := After(Some(FreshEnrollment), Burst(n, now), policy);
            at.Some? && (n < policy.maxAttempts ==> at.value.failed == n && at.value.lockedUntil.None?)
  {
    if n > 0 {
      BoundIsTight(policy, now, n - 1);
      BurstStep(n, now, policy);
      OneMoreWithin(Checked(Some(FreshEnrollment), Burst(n - 1, now), policy), now);
    }
  }
}
