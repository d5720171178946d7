/** Vocabulary shared by the models of the auto-trade engine. */
module Common {

  datatype Option<+T> = None | Some(value: T)

  /** Quantities at or below this size count as zero throughout the engine. */
  const EPSILON: real := 0.000000001

  function MinR(x: real, y: real): real {
    if x <= y then x else y
  }

  function MaxR(x: real, y: real): real {
    if x >= y then x else y
  }

  function AbsR(x: real): real {
    if x >= 0.0 then x else -x
  }

  /** The engine's tolerance test: equal up to EPSILON, with no relative tolerance. */
  predicate Close(x: real, y: real) {
    AbsR(x - y) <= EPSILON
  }

  predicate Distinct<T(==)>(s: seq<T>) {
    forall i, j :: 0 <= i < j < |s| ==> s[i] != s[j]
  }

  lemma SomeMember(s: set<int>)
    requires s != {}
    ensures exists x :: x in s
  {
    assert (forall x :: x !in s) ==> s == {};
  }

  lemma {:induction false} SubsetSize<T>(a: set<T>, b: set<T>)
    requires a <= b
    ensures |a| <= |b|
    decreases a
  {
    if x :| x in a {
      SubsetSize(a - {x}, b - {x});
    }
  }
}

/** The lifecycle states of a position row. */
module PositionStates {

  datatype PositionState =
    Pending | Entering | Open | Adjusting | Closing | Closed | Cancelled | Failed | Reconnecting | ErrorRecovery
}
