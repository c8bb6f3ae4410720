/**
 Refresh-token families and access-token versions.
 Rotating a refresh token takes several writes: the old token is consumed, the user is read, the new token is created.
 Revoking a family, or all tokens of a user, updates one token after another.
 The state machine interleaves any number of logins, refreshes, logouts and revocations at that grain.
 */
module Auth {
  import opened Domain

  type TokenHash = nat
  type Family = nat
  type CallId = nat

  datatype Token = Token(user: UserId, family: Family, expiresAt: Time, revoked: bool)

  datatype AccessToken = AccessToken(user: UserId, version: nat)

  /** A login that has read its user; a refresh that has consumed its token; the same once it has read the user. */
  datatype Call =
    | LoggingIn(user: UserId, version: nat)
    | Rotating(user: UserId, family: Family)
    | Signing(user: UserId, family: Family, version: nat)

  /** The users' token versions, the stored refresh tokens, the calls under way, the random values drawn so far and the
      access tokens handed out. */
  datatype State = State(
    versions: map<UserId, nat>, tokens: map<TokenHash, Token>, calls: map<CallId, Call>,
    hashes: set<TokenHash>, families: set<Family>, issued: set<AccessToken>)

  datatype Step =
    | Register(user: UserId)
    | StartLogin(call: CallId, user: UserId)
    | FinishLogin(call: CallId, hash: TokenHash, family: Family, expiresAt: Time)
    | Consume(call: CallId, hash: TokenHash, now: Time)
    | ReadUser(call: CallId)
    | FinishRefresh(call: CallId, hash: TokenHash, expiresAt: Time)
    | Drop(call: CallId)
    | Revoke(hash: TokenHash)
    | IncrementVersion(user: UserId)
    | Purge(hash: TokenHash, now: Time)

  predicate Consumable(tokens: map<TokenHash, Token>, hash: TokenHash, now: Time) {
    hash in tokens && !tokens[hash].revoked && tokens[hash].expiresAt > now
  }

  function Revoked(tokens: map<TokenHash, Token>, hash: TokenHash): map<TokenHash, Token> {
    if hash in tokens then tokens[hash := tokens[hash].(revoked := true)] else tokens
  }

  function FamilyRevoked(tokens: map<TokenHash, Token>, f: Family): map<TokenHash, Token> {
    map h | h in tokens :: if tokens[h].family == f then tokens[h].(revoked := true) else tokens[h]
  }

  function UserRevoked(tokens: map<TokenHash, Token>, u: UserId): map<TokenHash, Token> {
    map h | h in tokens :: if tokens[h].user == u then tokens[h].(revoked := true) else tokens[h]
  }

  function Apply(a: State, step: Step): State {
    match step
    case Register(u) => if u in a.versions then a else a.(versions := a.versions[u := 0])
    case StartLogin(p, u) =>
      if p !in a.calls && u in a.versions then a.(calls := a.calls[p := LoggingIn(u, a.versions[u])]) else a
    case FinishLogin(p, hash, f, expiresAt) =>
      if p in a.calls && a.calls[p].LoggingIn? && hash !in a.hashes && f !in a.families
      then
        var c := a.calls[p];
        a.(tokens := a.tokens[hash := Token(c.user, f, expiresAt, false)], calls := a.calls - {p},
           hashes := a.hashes + {hash}, families := a.families + {f}, issued := a.issued + {AccessToken(c.user, c.version)})
      else a
    case Consume(p, hash, now) =>
      if p !in a.calls && Consumable(a.tokens, hash, now)
      then a.(tokens := Revoked(a.tokens, hash), calls := a.calls[p := Rotating(a.tokens[hash].user, a.tokens[hash].family)])
      else a
    case ReadUser(p) =>
      if p in a.calls && a.calls[p].Rotating?
      then
        var c := a.calls[p];
        if c.user in a.versions then a.(calls := a.calls[p := Signing(c.user, c.family, a.versions[c.user])])
        else a.(calls := a.calls - {p})
      else a
    case FinishRefresh(p, hash, expiresAt) =>
      if p in a.calls && a.calls[p].Signing? && hash !in a.hashes
      then
        var c := a.calls[p];
        a.(tokens := a.tokens[hash := Token(c.user, c.family, expiresAt, false)], calls := a.calls - {p},
           hashes := a.hashes + {hash}, issued := a.issued + {AccessToken(c.user, c.version)})
      else a
    case Drop(p) => a.(calls := a.calls - {p})
    case Revoke(hash) => a.(tokens := Revoked(a.tokens, hash))
    case IncrementVersion(u) => if u in a.versions then a.(versions := a.versions[u := a.versions[u] + 1]) else a
    case Purge(hash, now) =>
      if hash in a.tokens && a.tokens[hash].expiresAt <= now then a.(tokens := a.tokens - {hash}) else a
  }

  function Run(a: State, steps: seq<Step>): State
    decreases |steps|
  {
    if steps == [] then a else Run(Apply(a, steps[0]), steps[1..])
  }

  // ---------- what keeps a family alive ----------

  datatype Live = LiveToken(hash: TokenHash) | LiveCall(call: CallId)

  predicate Refreshing(c: Call, f: Family) {
    !c.LoggingIn? && c.family == f
  }

  predicate IsLive(a: State, f: Family, x: Live) {
    match x
    case LiveToken(h) => h in a.tokens && a.tokens[h].family == f && !a.tokens[h].revoked
    case LiveCall(p) => p in a.calls && Refreshing(a.calls[p], f)
  }

  function LiveOf(a: State, f: Family): set<Live> {
    (set h | h in a.tokens && a.tokens[h].family == f && !a.tokens[h].revoked :: LiveToken(h))
    + (set p | p in a.calls && Refreshing(a.calls[p], f) :: LiveCall(p))
  }

  ghost predicate Rotates(a: State) {
    forall f, x, y :: IsLive(a, f, x) && IsLive(a, f, y) ==> x == y
  }

  /** Random values in use have been drawn, and everything about a family belongs to one user. */
  ghost predicate Drawn(a: State) {
    (forall h | h in a.tokens :: h in a.hashes && a.tokens[h].family in a.families)
    && (forall p | p in a.calls && !a.calls[p].LoggingIn? :: a.calls[p].family in a.families)
  }

  ghost predicate OneUserPerFamily(a: State) {
    (forall h, k | h in a.tokens && k in a.tokens && a.tokens[h].family == a.tokens[k].family ::
       a.tokens[h].user == a.tokens[k].user)
    && (forall h, p | h in a.tokens && p in a.calls && Refreshing(a.calls[p], a.tokens[h].family) ::
          a.tokens[h].user == a.calls[p].user)
    && forall p, q | p in a.calls && q in a.calls && !a.calls[p].LoggingIn? && Refreshing(a.calls[q], a.calls[p].family) ::
         a.calls[p].user == a.calls[q].user
  }

  /** Everything belongs to a stored user, and no access token was signed, or is about to be, with a version above its user's. */
  ghost predicate VersionsBounded(a: State) {
    (forall t | t in a.issued :: t.user in a.versions && t.version <= a.versions[t.user])
    && (forall h | h in a.tokens :: a.tokens[h].user in a.versions)
    && (forall p | p in a.calls :: a.calls[p].user in a.versions)
    && forall p | p in a.calls && !a.calls[p].Rotating? ::
         a.calls[p].version <= a.versions[a.calls[p].user]
  }

  ghost predicate Inv(a: State) {
    Drawn(a) && Rotates(a) && OneUserPerFamily(a) && VersionsBounded(a)
  }

  lemma FreshIsInv(versions: map<UserId, nat>)
    ensures Inv(State(versions, map[], map[], {}, {}, {}))
  {
  }

  lemma StepKeepsDrawn(a: State, step: Step)
    requires Drawn(a)
    ensures Drawn(Apply(a, step))
  {
  }

  lemma StepKeepsRotation(a: State, step: Step)
    requires Drawn(a) && Rotates(a)
    ensures Rotates(Apply(a, step))
  {
    var t := Apply(a, step);
    forall f, x, y | IsLive(t, f, x) && IsLive(t, f, y) ensures x == y {
      LiveBefore(a, step, f, x);
      LiveBefore(a, step, f, y);
    }
  }

  /** What was live before in place of x: a rotation passes the family's one life on, a login starts a new family. */
  function Origin(a: State, step: Step, x: Live): Live {
    match step
    case Consume(p, hash, now) => if x == LiveCall(p) && p !in a.calls then LiveToken(hash) else x
    case FinishRefresh(p, hash, expiresAt) => if x == LiveToken(hash) && hash !in a.hashes then LiveCall(p) else x
    case _ => x
  }

  lemma LiveBefore(a: State, step: Step, f: Family, x: Live)
    requires Drawn(a) && IsLive(Apply(a, step), f, x)
    ensures IsLive(a, f, Origin(a, step, x)) || (step.FinishLogin? && step.family == f && f !in a.families && x == LiveToken(step.hash))
    ensures f in a.families || (step.FinishLogin? && step.family == f)
  {
  }

  lemma StepKeepsUsers(a: State, step: Step)
    requires Drawn(a) && OneUserPerFamily(a)
    ensures OneUserPerFamily(Apply(a, step))
  {
    if step.FinishLogin? {
      LoginKeepsUsers(a, step);
    } else if step.Consume? {
      ConsumingKeepsUsers(a, step);
    } else if step.FinishRefresh? {
      CreatingKeepsUsers(a, step);
    }
  }

  lemma LoginKeepsUsers(a: State, step: Step)
    requires Drawn(a) && OneUserPerFamily(a) && step.FinishLogin?
    ensures OneUserPerFamily(Apply(a, step))
  {
  }

  lemma ConsumingKeepsUsers(a: State, step: Step)
    requires Drawn(a) && OneUserPerFamily(a) && step.Consume?
    ensures OneUserPerFamily(Apply(a, step))
  {
  }

  lemma CreatingKeepsUsers(a: State, step: Step)
    requires Drawn(a) && OneUserPerFamily(a) && step.FinishRefresh?
    ensures OneUserPerFamily(Apply(a, step))
  {
  }

  lemma StepKeepsVersions(a: State, step: Step)
    requires VersionsBounded(a)
    ensures VersionsBounded(Apply(a, step))
  {
  }

  lemma StepKeepsInv(a: State, step: Step)
    requires Inv(a)
    ensures Inv(Apply(a, step))
  {
    StepKeepsDrawn(a, step);
    StepKeepsRotation(a, step);
    StepKeepsUsers(a, step);
    StepKeepsVersions(a, step);
  }

  lemma {:induction false} InvKept(a: State, steps: seq<Step>)
    requires Inv(a)
    ensures Inv(Run(a, steps))
    decreases |steps|
  {
    if steps != [] {
      StepKeepsInv(a, steps[0]);
      InvKept(Apply(a, steps[0]), steps[1..]);
    }
  }

  /** Refresh rotation: in every interleaving, a family never has more than one unrevoked token and refresh under way
      taken together. */
  lemma RotationIsExclusive(a: State, steps: seq<Step>, f: Family)
    requires Inv(a)
    ensures |LiveOf(Run(a, steps), f)| <= 1
  {
    InvKept(a, steps);
    AtMostOneLive(Run(a, steps), f);
  }

  lemma LiveOfIsLive(a: State, f: Family, x: Live)
    requires x in LiveOf(a, f)
    ensures IsLive(a, f, x)
  {
  }

  lemma AtMostOneLive(a: State, f: Family)
    requires Rotates(a)
    ensures |LiveOf(a, f)| <= 1
  {
    var live := LiveOf(a, f);
    if x :| x in live {
      forall y | y in live ensures y == x {
        LiveOfIsLive(a, f, x);
        LiveOfIsLive(a, f, y);
      }
      assert live == {x};
    }
  }

  // ---------- tokens are single-use ----------

  predicate Consumes(a: State, step: Step, h: TokenHash) {
    step.Consume? && step.hash == h && step.call !in a.calls && Consumable(a.tokens, h, step.now)
  }

  function TimesConsumed(a: State, steps: seq<Step>, h: TokenHash): nat
    decreases |steps|
  {
    if steps == [] then 0
    else (if Consumes(a, steps[0], h) then 1 else 0) + TimesConsumed(Apply(a, steps[0]), steps[1..], h)
  }

  predicate Spent(a: State, h: TokenHash) {
    h in a.hashes && (h in a.tokens ==> a.tokens[h].revoked)
  }

  /** A token is consumed at most once in any run, and never once it is spent: revoked, logged out, or purged. */
  lemma {:induction false} ConsumedAtMostOnce(a: State, steps: seq<Step>, h: TokenHash)
    requires Drawn(a)
    ensures TimesConsumed(a, steps, h) <= if Spent(a, h) then 0 else 1
    decreases |steps|
  {
    if steps != [] {
      var next := Apply(a, steps[0]);
      StepKeepsDrawn(a, steps[0]);
      assert Spent(a, h) ==> Spent(next, h);
      assert Consumes(a, steps[0], h) ==> Spent(next, h);
      ConsumedAtMostOnce(next, steps[1..], h);
    }
  }

  /** The step starts a refresh with the token. */
  predicate StartsRefresh(a: State, step: Step, h: TokenHash) {
    step.Consume? && step.hash == h && step.call !in a.calls && step.call in Apply(a, step).calls
  }

  predicate RefreshesOnlyBefore(a: State, steps: seq<Step>, h: TokenHash, end: Time)
    decreases |steps|
  {
    steps != [] ==>
      (StartsRefresh(a, steps[0], h) ==> steps[0].now < end) && RefreshesOnlyBefore(Apply(a, steps[0]), steps[1..], h, end)
  }

  /** Whatever goes on, a token starts refreshes only before its expiry, which never changes; and one that is gone from the
      store starts none. */
  lemma {:induction false} ExpiredNeverRefreshes(a: State, steps: seq<Step>, h: TokenHash)
    requires Drawn(a) && h in a.hashes
    ensures h in a.tokens ==> RefreshesOnlyBefore(a, steps, h, a.tokens[h].expiresAt)
    ensures h !in a.tokens ==> forall end :: RefreshesOnlyBefore(a, steps, h, end)
    decreases |steps|
  {
    if steps != [] {
      var next := Apply(a, steps[0]);
      StepKeepsDrawn(a, steps[0]);
      ExpiredNeverRefreshes(next, steps[1..], h);
      ExpiryStays(a, steps[0], h);
    }
  }

  lemma ExpiryStays(a: State, step: Step, h: TokenHash)
    requires h in a.hashes
    ensures h in Apply(a, step).hashes
    ensures h in Apply(a, step).tokens ==> h in a.tokens && Apply(a, step).tokens[h].expiresAt == a.tokens[h].expiresAt
    ensures StartsRefresh(a, step, h) ==> h in a.tokens && !a.tokens[h].revoked && step.now < a.tokens[h].expiresAt
  {
  }

  // ---------- dead families ----------

  ghost predicate Dead(a: State, f: Family) {
    f in a.families && forall x :: !IsLive(a, f, x)
  }

  ghost predicate InFlight(a: State, f: Family) {
    exists p | p in a.calls :: Refreshing(a.calls[p], f)
  }

  /** Some refresh with a token of the family succeeds somewhere in the run. */
  ghost predicate SomeRefreshSucceeds(a: State, steps: seq<Step>, f: Family)
    decreases |steps|
  {
    steps != [] &&
    ((steps[0].Consume? && Consumes(a, steps[0], steps[0].hash) && a.tokens[steps[0].hash].family == f)
     || SomeRefreshSucceeds(Apply(a, steps[0]), steps[1..], f))
  }

  lemma {:induction false} DeadStaysDead(a: State, steps: seq<Step>, f: Family)
    requires Drawn(a) && Dead(a, f)
    ensures Dead(Run(a, steps), f) && !SomeRefreshSucceeds(a, steps, f)
    decreases |steps|
  {
    if steps != [] {
      var next := Apply(a, steps[0]);
      StepKeepsDrawn(a, steps[0]);
      forall x ensures !IsLive(next, f, x) {
        if IsLive(next, f, x) {
          LiveBefore(a, steps[0], f, x);
        }
      }
      if steps[0].Consume? && steps[0].hash in a.tokens && a.tokens[steps[0].hash].family == f {
        assert !IsLive(a, f, LiveToken(steps[0].hash));
      }
      DeadStaysDead(next, steps[1..], f);
    }
  }

  ghost predicate CanStillRefresh(a: State, f: Family) {
    exists steps :: SomeRefreshSucceeds(a, steps, f)
  }

  /** A family can still refresh exactly if it has an unrevoked token or a refresh under way. */
  lemma LiveFamilyCanRefresh(a: State, f: Family)
    requires Inv(a) && f in a.families
    ensures CanStillRefresh(a, f) <==> exists x :: IsLive(a, f, x)
  {
    if x :| IsLive(a, f, x) {
      match x
      case LiveCall(p) => var steps := SurvivorRevives(a, f, p);
      case LiveToken(h) =>
        var p := FreshCall(a.calls.Keys);
        var step := Consume(p, h, a.tokens[h].expiresAt - 1);
        assert Consumes(a, step, h);
        assert SomeRefreshSucceeds(a, [step], f);
    } else {
      forall steps ensures !SomeRefreshSucceeds(a, steps, f) {
        DeadStaysDead(a, steps, f);
      }
    }
  }

  /** A revocation of the family that ran over these steps, whatever else went on among them: each of the tokens that were
      unrevoked when it began has been spent by its end, one way or another. */
  ghost predicate Scans(a: State, steps: seq<Step>, f: Family) {
    forall h | h in a.tokens && a.tokens[h].family == f && !a.tokens[h].revoked :: Spent(Run(a, steps), h)
  }

  /** A token of the family that was created while the revocation ran, and that it missed. */
  ghost predicate Missed(a: State, end: State, f: Family) {
    exists h :: h in end.tokens && end.tokens[h].family == f && !end.tokens[h].revoked && h !in a.hashes
  }

  /** Family death: after the tokens of a family were revoked one by one, it is dead for good exactly if no refresh of it is
      under way at the end and none has completed behind the revocation's back. */
  lemma ReuseKillsFamily(a: State, steps: seq<Step>, f: Family)
    requires Inv(a) && f in a.families && Scans(a, steps, f)
    ensures var end := Run(a, steps); CanStillRefresh(end, f) <==> InFlight(end, f) || Missed(a, end, f)
  {
    var end := Run(a, steps);
    InvKept(a, steps);
    RunKeepsFamilies(a, steps);
    LiveFamilyCanRefresh(end, f);
    if x :| IsLive(end, f, x) {
      match x
      case LiveCall(p) =>
      case LiveToken(h) =>
        if h in a.hashes {
          OldTokenWasThere(a, steps, h);
        }
    }
    if InFlight(end, f) {
      var p :| p in end.calls && Refreshing(end.calls[p], f);
      assert IsLive(end, f, LiveCall(p));
    }
    if Missed(a, end, f) {
      var h :| h in end.tokens && end.tokens[h].family == f && !end.tokens[h].revoked && h !in a.hashes;
      assert IsLive(end, f, LiveToken(h));
    }
  }

  lemma {:induction false} RunKeepsFamilies(a: State, steps: seq<Step>)
    ensures a.families <= Run(a, steps).families
    decreases |steps|
  {
    if steps != [] {
      RunKeepsFamilies(Apply(a, steps[0]), steps[1..]);
    }
  }

  /** A drawn token that is stored and unrevoked was so before, in the same family. */
  lemma {:induction false} OldTokenWasThere(a: State, steps: seq<Step>, h: TokenHash)
    requires h in a.hashes && h in Run(a, steps).tokens && !Run(a, steps).tokens[h].revoked
    ensures h in a.tokens && a.tokens[h] == Run(a, steps).tokens[h]
    decreases |steps|
  {
    if steps != [] {
      OldTokenWasThere(Apply(a, steps[0]), steps[1..], h);
    }
  }

  /** It can only survive so if a refresh was under way when the revocation began, or won a token while it ran. */
  lemma SurvivalNeedsRefresh(a: State, steps: seq<Step>, f: Family)
    requires Inv(a) && f in a.families && Scans(a, steps, f)
    requires !InFlight(a, f) && !SomeRefreshSucceeds(a, steps, f)
    ensures !CanStillRefresh(Run(a, steps), f)
  {
    InvKept(a, steps);
    RunKeepsFamilies(a, steps);
    LiveFamilyCanRefresh(Run(a, steps), f);
    forall x ensures !IsLive(Run(a, steps), f, x) {
      if IsLive(Run(a, steps), f, x) {
        LifeStays(a, steps, f, x);
      }
    }
  }

  /** Where no refresh is under way and none succeeds, no life of the family is new. */
  lemma {:induction false} LifeStays(a: State, steps: seq<Step>, f: Family, x: Live)
    requires Drawn(a) && f in a.families && !InFlight(a, f) && !SomeRefreshSucceeds(a, steps, f)
    requires IsLive(Run(a, steps), f, x)
    ensures IsLive(a, f, x) && x.LiveToken?
    decreases |steps|
  {
    if steps == [] {
      if x.LiveCall? {
        assert InFlight(a, f);
      }
    } else {
      var next := Apply(a, steps[0]);
      StepKeepsDrawn(a, steps[0]);
      forall p ensures !(p in next.calls && Refreshing(next.calls[p], f)) {
        if p in next.calls && Refreshing(next.calls[p], f) {
          LiveBefore(a, steps[0], f, LiveCall(p));
        }
      }
      LifeStays(next, steps[1..], f, x);
      LiveBefore(a, steps[0], f, x);
    }
  }

  predicate OnlyRevokes(steps: seq<Step>) {
    forall step | step in steps :: step.Revoke?
  }

  lemma {:induction false} RevokingKeepsCalls(a: State, steps: seq<Step>)
    requires OnlyRevokes(steps)
    ensures Run(a, steps).calls == a.calls && Run(a, steps).hashes == a.hashes
    ensures Run(a, steps).tokens.Keys == a.tokens.Keys
    decreases |steps|
  {
    if steps != [] {
      assert steps[0] in steps && forall step | step in steps[1..] :: step in steps;
      RevokingKeepsCalls(Apply(a, steps[0]), steps[1..]);
    }
  }

  /** Undisturbed, the revocation ends the family exactly when none of its refreshes was under way. */
  lemma UndisturbedReuseKillsFamily(a: State, steps: seq<Step>, f: Family)
    requires Inv(a) && f in a.families && Scans(a, steps, f) && OnlyRevokes(steps)
    ensures CanStillRefresh(Run(a, steps), f) <==> InFlight(a, f)
  {
    ReuseKillsFamily(a, steps, f);
    RevokingKeepsCalls(a, steps);
  }

  /** The run in which a refresh that outlived the revocation revives its family. */
  lemma SurvivorRevives(a: State, f: Family, p: CallId) returns (steps: seq<Step>)
    requires p in a.calls && Refreshing(a.calls[p], f) && a.calls[p].user in a.versions
    ensures SomeRefreshSucceeds(a, steps, f)
  {
    var h := FreshHash(a.hashes);
    var s1 := Apply(a, ReadUser(p));
    assert s1.calls[p].Signing? && s1.calls[p].family == f;
    var s2 := Apply(s1, FinishRefresh(p, h, 1));
    assert s2.tokens[h] == Token(s1.calls[p].user, f, 1, false) && p !in s2.calls;
    assert Consumes(s2, Consume(p, h, 0), h);
    steps := [ReadUser(p), FinishRefresh(p, h, 1), Consume(p, h, 0)];
    assert steps[1..] == [FinishRefresh(p, h, 1), Consume(p, h, 0)];
    assert steps[1..][1..] == [Consume(p, h, 0)];
    assert SomeRefreshSucceeds(s2, [Consume(p, h, 0)], f);
    assert SomeRefreshSucceeds(s1, steps[1..], f);
  }

  lemma FreshHash(hashes: set<TokenHash>) returns (h: TokenHash)
    ensures h !in hashes
  {
    h := 0;
    var rest := hashes;
    while h in hashes
      invariant forall x | x in hashes :: x in rest || x < h
      invariant forall x | x in rest :: x >= h
      decreases |rest|
    {
      rest := rest - {h};
      h := h + 1;
    }
  }

  lemma FreshCall(calls: set<CallId>) returns (p: CallId)
    ensures p !in calls
  {
    p := FreshHash(calls);
  }

  /** The same of a revocation of all tokens of a user, for each family of that user. */
  lemma LogoutAllKillsFamilies(a: State, steps: seq<Step>, u: UserId, h: TokenHash)
    requires Inv(a) && h in a.tokens && a.tokens[h].user == u
    requires forall k | k in a.tokens && a.tokens[k].user == u && !a.tokens[k].revoked :: Spent(Run(a, steps), k)
    ensures var f, end := a.tokens[h].family, Run(a, steps);
            (CanStillRefresh(end, f) <==> InFlight(end, f) || Missed(a, end, f))
            && (CanStillRefresh(end, f) ==> InFlight(a, f) || SomeRefreshSucceeds(a, steps, f))
  {
    var f := a.tokens[h].family;
    forall k | k in a.tokens && a.tokens[k].family == f && !a.tokens[k].revoked ensures Spent(Run(a, steps), k) {
      assert a.tokens[k].user == a.tokens[h].user;
    }
    ReuseKillsFamily(a, steps, f);
    if !InFlight(a, f) && !SomeRefreshSucceeds(a, steps, f) {
      SurvivalNeedsRefresh(a, steps, f);
    }
  }

  // ---------- access tokens ----------

  predicate Accepted(a: State, t: AccessToken) {
    t.user in a.versions && a.versions[t.user] == t.version
  }

  lemma {:induction false} VersionsGrow(a: State, steps: seq<Step>, u: UserId)
    requires u in a.versions
    ensures u in Run(a, steps).versions && a.versions[u] <= Run(a, steps).versions[u]
    decreases |steps|
  {
    if steps != [] {
      VersionsGrow(Apply(a, steps[0]), steps[1..], u);
    }
  }

  /** Global logout: once the version is incremented, no token handed out before, and none that a login or refresh then
      under way signs from the user record it has already read, is ever accepted again. */
  lemma GlobalLogout(a: State, u: UserId, steps: seq<Step>, t: AccessToken)
    requires Inv(a) && u in a.versions && t.user == u
    requires t in a.issued || exists p | p in a.calls :: !a.calls[p].Rotating? && t == AccessToken(a.calls[p].user, a.calls[p].version)
    ensures !Accepted(Run(Apply(a, IncrementVersion(u)), steps), t)
  {
    VersionsGrow(Apply(a, IncrementVersion(u)), steps, u);
  }

  /** Nothing else takes an access token away: it stays accepted until its user's version is incremented. */
  lemma {:induction false} AcceptedUntilLogout(a: State, steps: seq<Step>, t: AccessToken)
    requires Accepted(a, t) && forall step | step in steps :: step != IncrementVersion(t.user)
    ensures Accepted(Run(a, steps), t)
    decreases |steps|
  {
    if steps != [] {
      assert steps[0] in steps && forall step | step in steps[1..] :: step in steps;
      AcceptedUntilLogout(Apply(a, steps[0]), steps[1..], t);
    }
  }
}
