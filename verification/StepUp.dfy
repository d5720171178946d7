/**
 * Single-use step-up tokens.
 *
 * A token carries its subject, a unique id and an expiry; presenting it for a critical
 * action writes a "used" marker for its id into a shared key store, and only the first
 * writer is let through. Markers expire by themselves. The key store may fail at any
 * call, before or after the marker was written.
 */
module StepUp {
  import opened Common

  datatype Token = Token(subject: string, jti: string, expiresAt: int, isStepUp: bool)

  /** Used markers: token id to the time at which the marker disappears. */
  type Markers = map<string, int>

  /** How the key store answers one call. */
  datatype Store = Up | FailsBefore | FailsAfter

  datatype Decision =
    | PassWithoutFactor | NeedsFactor | NeedsToken | BadToken | WrongSubject | AlreadyUsed | Authorized

  function Mint(subject: string, jti: string, now: int, lifetime: int): (t: Token)
    ensures forall at :: Acceptable(t, at) <==> subject != "" && jti != "" && at < now + lifetime
  {
    Token(subject, jti, now + lifetime, true)
  }

  /** Type, subject and id are present, and the expiry lies strictly in the future
      (section 4.1.4 of RFC 7519). */
  predicate Acceptable(t: Token, now: int) {
    t.isStepUp && t.subject != "" && t.jti != "" && now < t.expiresAt
  }

  predicate Marked(m: Markers, jti: string, now: int) {
    jti in m && now < m[jti]
  }

  /** The store's set-if-absent with a time to live. */
  function SetIfAbsent(m: Markers, jti: string, now: int, ttl: int): Markers {
    if Marked(m, jti, now) then m else m[jti := now + ttl]
  }

  /** The markers after a consume call, and whether it reported the id as unused. */
  function Consume(m: Markers, jti: string, now: int, ttl: int, store: Store): (Markers, bool) {
    match store
    case FailsBefore => (m, false)
    case FailsAfter => (SetIfAbsent(m, jti, now, ttl), false)
    case Up => (SetIfAbsent(m, jti, now, ttl), !Marked(m, jti, now))
  }

  /** The gate in front of a critical action, over the shared key store. */
  class Gate {
    const ttl: int
    const factorRequired: bool
    var markers: Markers

    constructor (ttl: int, factorRequired: bool)
      ensures this.ttl == ttl && this.factorRequired == factorRequired && markers == map[]
    {
      this.ttl := ttl;
      this.factorRequired := factorRequired;
      markers := map[];
    }

    method ConsumeId(jti: string, now: int, store: Store) returns (unused: bool)
      modifies this
      ensures (markers, unused) == Consume(old(markers), jti, now, ttl, store)
    {
      if store == FailsBefore { return false; }
      unused := !(jti in markers && now < markers[jti]);
      if unused { markers := markers[jti := now + ttl]; }
      if store == FailsAfter { unused := false; }
    }

    method RequireStepUp(user: string, hasFactor: bool, token: Option<Token>, now: int, store: Store)
      returns (decision: Decision)
      modifies this
      ensures (markers, decision)
           == Decide(old(markers), Request(user, hasFactor, token, now, store), ttl, factorRequired)
      ensures decision.PassWithoutFactor? <==> !hasFactor && !factorRequired
      ensures decision.NeedsFactor? <==> !hasFactor && factorRequired
      ensures decision.NeedsToken? <==> hasFactor && token.None?
      ensures decision.BadToken?
         <==> (hasFactor && token.Some? && (!token.value.isStepUp || token.value.subject == "" || token.value.jti == ""
                                            || token.value.expiresAt <= now))
      ensures decision.WrongSubject? <==> hasFactor && token.Some? && !decision.BadToken? && token.value.subject != user
      ensures decision.Authorized?
         <==> (hasFactor && token.Some? && token.value.isStepUp && token.value.subject == user && user != ""
               && token.value.jti != "" && now < token.value.expiresAt
               && store.Up? && (token.value.jti in old(markers) ==> old(markers)[token.value.jti] <= now))
      ensures markers != old(markers) ==> hasFactor && token.Some? && token.value.subject == user
    {
      if !hasFactor {
        return if factorRequired then NeedsFactor else PassWithoutFactor;
      }
      if token.None? { return NeedsToken; }
      var t := token.value;
      if !t.isStepUp || t.subject == "" || t.jti == "" || now >= t.expiresAt { return BadToken; }
      if t.subject != user { return WrongSubject; }
      var unused := ConsumeId(t.jti, now, store);
      return if unused then Authorized else AlreadyUsed;
    }
  }

  // ----- Runs -----------------------------------------------------------------------

  datatype Request = Request(user: string, hasFactor: bool, token: Option<Token>, now: int, store: Store)

  function Decide(m: Markers, r: Request, ttl: int, factorRequired: bool): (Markers, Decision) {
    if !r.hasFactor then (m, if factorRequired then NeedsFactor else PassWithoutFactor)
    else if r.token.None? then (m, NeedsToken)
    else if !Acceptable(r.token.value, r.now) then (m, BadToken)
    else if r.token.value.subject != r.user then (m, WrongSubject)
    else
      var (m', unused) := Consume(m, r.token.value.jti, r.now, ttl, r.store);
      (m', if unused then Authorized else AlreadyUsed)
  }

  function MarkersAfter(m: Markers, run: seq<Request>, ttl: int, factorRequired: bool): Markers {
    if run == [] then m
    else Decide(MarkersAfter(m, run[..|run| - 1], ttl, factorRequired), run[|run| - 1], ttl, factorRequired).0
  }

  /** How often this token id was accepted for an action along the run. */
  function Uses(m: Markers, run: seq<Request>, jti: string, ttl: int, factorRequired: bool): nat {
    if run == [] then 0
    else
      var init, r := run[..|run| - 1], run[|run| - 1];
      Uses(m, init, jti, ttl, factorRequired)
      + if r.token.Some? && r.token.value.jti == jti
           && Decide(MarkersAfter(m, init, ttl, factorRequired), r, ttl, factorRequired).1.Authorized?
        then 1 else 0
  }

  /**
   * A run in which every token with this id is the one minted at `mintedAt` with the
   * given lifetime, presented no earlier than it was minted, on a clock that never
   * goes back.
   */
  predicate RunOf(run: seq<Request>, jti: string, mintedAt: int, lifetime: int) {
    && (forall i, j :: 0 <= i < j < |run| ==> run[i].now <= run[j].now)
    && (forall i :: 0 <= i < |run| && run[i].token.Some? && run[i].token.value.jti == jti
          ==> run[i].now >= mintedAt && run[i].token.value.expiresAt == mintedAt + lifetime)
  }

  /**
   * Whose token is let through: an action is authorized if and only if the user has a second
   * factor and presents a step-up token of their own, in time, whose id no live marker names,
   * and the store answered. Only then, or when the store fails behind the write, is the id
   * marked; no other id ever is.
   */
  lemma AuthorizedIff(m: Markers, r: Request, ttl: int, factorRequired: bool)
    ensures var (after, decision) := Decide(m, r, ttl, factorRequired);
            && (decision.Authorized? <==> MaySpend(m, r) && r.store.Up?)
            && (decision.AlreadyUsed? <==> OwnToken(r) && !(MaySpend(m, r) && r.store.Up?))
            && after == if MaySpend(m, r) && !r.store.FailsBefore? then m[r.token.value.jti := r.now + ttl] else m
  {}

  /** A user with a second factor presents a token of their own before it expires. */
  predicate OwnToken(r: Request) {
    && r.hasFactor && r.token.Some? && r.token.value.isStepUp && r.token.value.subject == r.user && r.user != ""
    && r.token.value.jti != "" && r.now < r.token.value.expiresAt
  }

  predicate MaySpend(m: Markers, r: Request) {
    OwnToken(r) && (r.token.value.jti in m ==> m[r.token.value.jti] <= r.now)
  }

  /** Nobody else can spend a token, nor burn it: requests by other users leave its id unmarked. */
  lemma {:induction false} OthersCannotSpendAToken(m: Markers, run: seq<Request>, jti: string, subject: string,
                                                   ttl: int, factorRequired: bool)
    requires forall i :: 0 <= i < |run| && run[i].token.Some? && run[i].token.value.jti == jti
               ==> run[i].token.value.subject == subject != run[i].user
    ensures Uses(m, run, jti, ttl, factorRequired) == 0
    ensures var after := MarkersAfter(m, run, ttl, factorRequired);
            (jti in after <==> jti in m) && (jti in m ==> after[jti] == m[jti])
  {
    if run != [] {
      var init, r := run[..|run| - 1], run[|run| - 1];
      OthersCannotSpendAToken(m, init, jti, subject, ttl, factorRequired);
      AuthorizedIff(MarkersAfter(m, init, ttl, factorRequired), r, ttl, factorRequired);
    }
  }

  /** Once accepted, the id is marked until the token can no longer be accepted. */
  lemma {:induction false} MarkerOutlivesToken(m: Markers, run: seq<Request>, jti: string, mintedAt: int, lifetime: int,
                                               ttl: int, factorRequired: bool)
    requires RunOf(run, jti, mintedAt, lifetime) && lifetime <= ttl
    ensures Uses(m, run, jti, ttl, factorRequired) <= 1
    ensures Uses(m, run, jti, ttl, factorRequired) == 1
            ==> var marks := MarkersAfter(m, run, ttl, factorRequired);
                jti in marks && marks[jti] >= mintedAt + lifetime
  {
    if run != [] {
      var init, r := run[..|run| - 1], run[|run| - 1];
      MarkerOutlivesToken(m, init, jti, mintedAt, lifetime, ttl, factorRequired);
      var before := MarkersAfter(m, init, ttl, factorRequired);
      AuthorizedIff(before, r, ttl, factorRequired);
      assert MarkersAfter(m, run, ttl, factorRequired) == Decide(before, r, ttl, factorRequired).0;
      assert r.token.Some? && r.token.value.jti == jti
             ==> r.now >= mintedAt && r.token.value.expiresAt == mintedAt + lifetime;
    }
  }

  /**
   * Exactly when single use holds: a token of a given lifetime is accepted at most once
   * in every run, store failures included, if and only if it does not outlive the marker.
   * A token minted with the default lifetime lives exactly as long as the marker.
   */
  lemma SingleUseIffLifetimeWithinTtl(jti: string, lifetime: int, ttl: int, factorRequired: bool)
    requires jti != "" && ttl > 0
    ensures lifetime <= ttl
      <==> forall m: Markers, run, mintedAt :: RunOf(run, jti, mintedAt, lifetime)
             ==> Uses(m, run, jti, ttl, factorRequired) <= 1
  {
    if lifetime <= ttl {
      forall m: Markers, run, mintedAt | RunOf(run, jti, mintedAt, lifetime)
        ensures Uses(m, run, jti, ttl, factorRequired) <= 1
      {
        MarkerOutlivesToken(m, run, jti, mintedAt, lifetime, ttl, factorRequired);
      }
    } else {
      var run := OutlivingToken(jti, lifetime, ttl, factorRequired);
      assert RunOf(run, jti, 0, lifetime);
    }
  }

  /** A token that outlives its marker is accepted again once the marker is gone. */
  lemma OutlivingToken(jti: string, lifetime: int, ttl: int, factorRequired: bool) returns (run: seq<Request>)
    requires jti != "" && 0 < ttl < lifetime
    ensures RunOf(run, jti, 0, lifetime)
    ensures Uses(map[], run, jti, ttl, factorRequired) == 2
  {
    var token := Mint("user", jti, 0, lifetime);
    var first := Request("user", true, Some(token), 0, Up);
    var second := Request("user", true, Some(token), ttl, Up);
    run := [first, second];
    assert run[..1] == [first];
    assert [first][..0] == [];
    assert MarkersAfter(map[], [], ttl, factorRequired) == map[];
    assert Uses(map[], [], jti, ttl, factorRequired) == 0;
    assert Uses(map[], [first], jti, ttl, factorRequired) == 1;
    assert MarkersAfter(map[], [first], ttl, factorRequired) == map[jti := ttl];
  }

  /** The default lifetime: minted for the marker's time to live, used at most once. */
  lemma DefaultTokenIsSingleUse(m: Markers, run: seq<Request>, jti: string, mintedAt: int, ttl: int,
                                factorRequired: bool)
    requires RunOf(run, jti, mintedAt, ttl)
    ensures Uses(m, run, jti, ttl, factorRequired) <= 1
  {
    MarkerOutlivesToken(m, run, jti, mintedAt, ttl, ttl, factorRequired);
  }
}
