/**
 The auth service and repository, updating the stored tokens in place.
 A method here runs without interference; each of its writes is one step of the state machine in `Auth`.
 Random values come in as parameters that were never drawn before.
 */
module AuthStore {
  import opened Domain
  import opened Auth

  datatype RefreshResult = Rotated(access: AccessToken) | ReuseDetected | InvalidToken | UserGone

  class TokenStore {
    var versions: map<UserId, nat>
    var tokens: map<TokenHash, Token>
    // Bookkeeping of the state machine, see Auth.State
    ghost var calls: map<CallId, Call>
    ghost var hashes: set<TokenHash>
    ghost var families: set<Family>
    ghost var issued: set<AccessToken>

    constructor (versions: map<UserId, nat>)
      ensures Contents() == State(versions, map[], map[], {}, {}, {})
    {
      this.versions, tokens := versions, map[];
      calls, hashes, families, issued := map[], {}, {}, {};
    }

    ghost function Contents(): State
      reads this
    {
      State(versions, tokens, calls, hashes, families, issued)
    }

    /** The atomic single-use consume; the pre-update document is returned to the one caller that wins. */
    method ConsumeRefreshToken(hash: TokenHash, now: Time, ghost call: CallId) returns (consumed: Option<Token>)
      requires call !in calls
      modifies this
      ensures Contents() == Apply(old(Contents()), Consume(call, hash, now))
      ensures consumed == if hash in old(tokens) && !old(tokens)[hash].revoked && now < old(tokens)[hash].expiresAt
                          then Some(old(tokens)[hash]) else None
      ensures tokens == if consumed.Some? then old(tokens)[hash := old(tokens)[hash].(revoked := true)] else old(tokens)
    {
      consumed := None;
      if hash in tokens && !tokens[hash].revoked && tokens[hash].expiresAt > now {
        consumed := Some(tokens[hash]);
        tokens := tokens[hash := tokens[hash].(revoked := true)];
        calls := calls[call := Rotating(consumed.value.user, consumed.value.family)];
      }
    }

    method RevokeRefreshToken(hash: TokenHash)
      modifies this`tokens
      ensures Contents() == Apply(old(Contents()), Revoke(hash))
      ensures tokens == if hash in old(tokens) then old(tokens)[hash := old(tokens)[hash].(revoked := true)] else old(tokens)
    {
      if hash in tokens && !tokens[hash].revoked {
        tokens := tokens[hash := tokens[hash].(revoked := true)];
      }
    }

    /** An update-many over the family, document by document. */
    method RevokeFamilyTokens(family: Family) returns (ghost scan: seq<Step>)
      modifies this`tokens
      ensures Contents() == Run(old(Contents()), scan) && OnlyRevokes(scan)
      ensures tokens == FamilyRevoked(old(tokens), family) && tokens.Keys == old(tokens).Keys
      ensures forall h | h in tokens ::
                tokens[h] == if old(tokens)[h].family == family then old(tokens)[h].(revoked := true) else old(tokens)[h]
      ensures Drawn(old(Contents())) ==> Scans(old(Contents()), scan, family)
    {
      scan := RevokeAll(set h | h in tokens && tokens[h].family == family && !tokens[h].revoked);
      assert tokens == FamilyRevoked(old(tokens), family);
    }

    method RevokeAllUserRefreshTokens(user: UserId) returns (ghost scan: seq<Step>)
      modifies this`tokens
      ensures Contents() == Run(old(Contents()), scan) && OnlyRevokes(scan)
      ensures tokens == UserRevoked(old(tokens), user) && tokens.Keys == old(tokens).Keys
      ensures forall h | h in tokens ::
                tokens[h] == if old(tokens)[h].user == user then old(tokens)[h].(revoked := true) else old(tokens)[h]
    {
      scan := RevokeAll(set h | h in tokens && tokens[h].user == user && !tokens[h].revoked);
      assert tokens == UserRevoked(old(tokens), user);
    }

    /** Revokes the matching tokens in whatever order the update comes upon them. */
    method RevokeAll(hashes: set<TokenHash>) returns (ghost scan: seq<Step>)
      requires hashes <= tokens.Keys
      modifies this`tokens
      ensures Contents() == Run(old(Contents()), scan) && OnlyRevokes(scan)
      ensures tokens.Keys == old(tokens).Keys
      ensures forall h | h in tokens :: tokens[h] == if h in hashes then old(tokens)[h].(revoked := true) else old(tokens)[h]
    {
      var matching := hashes;
      scan := [];
      while matching != {}
        invariant Contents() == Run(old(Contents()), scan) && OnlyRevokes(scan)
        invariant matching <= hashes && tokens.Keys == old(tokens).Keys
        invariant forall h | h in tokens ::
                    tokens[h] == if h in hashes - matching then old(tokens)[h].(revoked := true) else old(tokens)[h]
      {
        var h :| h in matching;
        RunAppend(old(Contents()), scan, Revoke(h));
        tokens := tokens[h := tokens[h].(revoked := true)];
        scan, matching := scan + [Revoke(h)], matching - {h};
      }
    }

    method IncrementTokenVersion(user: UserId)
      modifies this`versions
      ensures Contents() == Apply(old(Contents()), IncrementVersion(user))
      ensures versions == if user in old(versions) then old(versions)[user := old(versions)[user] + 1] else old(versions)
    {
      if user in versions {
        versions := versions[user := versions[user] + 1];
      }
    }

    method Login(user: UserId, passwordMatch: bool, hash: TokenHash, family: Family, expiresAt: Time, ghost call: CallId)
      returns (access: Option<AccessToken>)
      requires call !in calls && hash !in hashes && family !in families
      modifies this
      ensures access.None? <==> user !in old(versions) || !passwordMatch
      ensures access.None? ==> Contents() == old(Contents())
      ensures access.Some? ==>
                Contents() == Run(old(Contents()), [StartLogin(call, user), FinishLogin(call, hash, family, expiresAt)])
                && Accepted(Contents(), access.value) && access.value.user == user
                && hash in tokens && tokens[hash] == Token(user, family, expiresAt, false)
    {
      if user !in versions || !passwordMatch {
        return None;
      }
      var version := versions[user];
      RunTwo(Contents(), StartLogin(call, user), FinishLogin(call, hash, family, expiresAt));
      tokens := tokens[hash := Token(user, family, expiresAt, false)];
      hashes, families, issued := hashes + {hash}, families + {family}, issued + {AccessToken(user, version)};
      assert old(calls)[call := LoggingIn(user, version)] - {call} == old(calls);
      return Some(AccessToken(user, version));
    }

    /** Rotation, or the answer to a token that cannot be consumed: one that is revoked takes its family down. */
    method Refresh(hash: TokenHash, now: Time, newHash: TokenHash, expiresAt: Time, ghost call: CallId)
      returns (r: RefreshResult, ghost scan: seq<Step>)
      requires call !in calls && newHash !in hashes && newHash !in tokens
      modifies this
      ensures r.Rotated? <==> hash in old(tokens) && !old(tokens)[hash].revoked && now < old(tokens)[hash].expiresAt
                              && old(tokens)[hash].user in old(versions)
      ensures r.InvalidToken? <==> hash !in old(tokens)
                                   || (!old(tokens)[hash].revoked && old(tokens)[hash].expiresAt <= now)
      ensures r.Rotated? ==>
                Contents() == Run(old(Contents()),
                                  [Consume(call, hash, now), ReadUser(call), FinishRefresh(call, newHash, expiresAt)])
                && Accepted(Contents(), r.access) && hash in tokens && tokens[hash].revoked
                && newHash in tokens
                && tokens[newHash] == Token(old(tokens)[hash].user, old(tokens)[hash].family, expiresAt, false)
      ensures r.ReuseDetected? <==> hash in old(tokens) && old(tokens)[hash].revoked
      ensures r.ReuseDetected? ==>
                Contents() == Run(old(Contents()), scan) && OnlyRevokes(scan)
                && tokens == FamilyRevoked(old(tokens), old(tokens)[hash].family)
                && forall h | h in tokens && tokens[h].family == old(tokens)[hash].family :: tokens[h].revoked
      ensures r.InvalidToken? ==> Contents() == old(Contents())
      ensures r.UserGone? <==> hash in old(tokens) && !old(tokens)[hash].revoked && now < old(tokens)[hash].expiresAt
                               && old(tokens)[hash].user !in old(versions)
      ensures r.UserGone? ==> Contents() == Run(old(Contents()), [Consume(call, hash, now), ReadUser(call)])
    {
      ghost var before := Contents();
      var consumed := ConsumeRefreshToken(hash, now, call);
      if consumed == None {
        if hash in tokens && tokens[hash].revoked {
          scan := RevokeFamilyTokens(tokens[hash].family);
          return ReuseDetected, scan;
        }
        return InvalidToken, [];
      }
      var user := consumed.value.user;
      if user !in versions {
        RunTwo(before, Consume(call, hash, now), ReadUser(call));
        calls := calls - {call};
        return UserGone, [];
      }
      var version := versions[user];
      RunThree(before, Consume(call, hash, now), ReadUser(call), FinishRefresh(call, newHash, expiresAt));
      ghost var signing := calls[call := Signing(user, consumed.value.family, version)];
      tokens := tokens[newHash := Token(user, consumed.value.family, expiresAt, false)];
      hashes, issued := hashes + {newHash}, issued + {AccessToken(user, version)};
      calls := signing - {call};
      return Rotated(AccessToken(user, version)), [];
    }

    method LogoutAll(user: UserId) returns (ghost scan: seq<Step>)
      modifies this
      ensures Contents() == Run(old(Contents()), [IncrementVersion(user)] + scan) && OnlyRevokes(scan)
      ensures tokens == UserRevoked(old(tokens), user)
      ensures forall h | h in tokens && tokens[h].user == user :: tokens[h].revoked
      ensures user in old(versions) ==> user in versions && versions[user] == old(versions)[user] + 1
    {
      IncrementTokenVersion(user);
      ghost var incremented := Contents();
      scan := RevokeAllUserRefreshTokens(user);
      assert ([IncrementVersion(user)] + scan)[1..] == scan;
      assert Contents() == Run(incremented, scan);
    }

    /** The version check of the authentication middleware. */
    method Authenticate(token: AccessToken) returns (ok: bool)
      ensures ok <==> Accepted(Contents(), token)
      ensures ok <==> token.user in versions && versions[token.user] == token.version
    {
      if token.user !in versions {
        return false;
      }
      return versions[token.user] == token.version;
    }
  }

  lemma {:induction false} RunAppend(a: State, steps: seq<Step>, last: Step)
    ensures Run(a, steps + [last]) == Apply(Run(a, steps), last)
    decreases |steps|
  {
    if steps == [] {
      assert [] + [last] == [last];
      assert Run(a, [last]) == Run(Apply(a, last), [last][1..]);
    } else {
      RunAppend(Apply(a, steps[0]), steps[1..], last);
      assert (steps + [last])[1..] == steps[1..] + [last];
    }
  }

  lemma RunTwo(a: State, s1: Step, s2: Step)
    ensures Run(a, [s1, s2]) == Apply(Apply(a, s1), s2)
  {
    var mid := Apply(a, s1);
    assert [s1, s2][1..] == [s2];
    assert Run(mid, [s2]) == Run(Apply(mid, s2), [s2][1..]);
  }

  lemma RunThree(a: State, s1: Step, s2: Step, s3: Step)
    ensures Run(a, [s1, s2, s3]) == Apply(Apply(Apply(a, s1), s2), s3)
  {
    assert [s1, s2, s3][1..] == [s2, s3];
    RunTwo(Apply(a, s1), s2, s3);
  }
}
