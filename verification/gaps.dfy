/** Protections expected of a relying party that these handlers leave out:
    duplicate-id rejection, the signature-counter comparison of section 7.2
    of W3C Web Authentication Level 2, single-use challenges, and separate
    challenges per ceremony. Each is stated as what the handlers do instead.
    The last lemma records an edge of the challenge guard's truthiness test. */
module Gaps {
  import opened Types
  import Credentials
  import RegistrationOptionsRoute
  import AuthenticationOptionsRoute
  import RegistrationVerifyRoute
  import AuthenticationVerifyRoute

  /** No duplicate-id rejection: a verified registration whose credential id
      is already in the list is appended anyway, leaving two entries with the
      same id. */
  lemma DuplicateIdAccepted(u: User, body: RegistrationVerifyRoute.RegistrationBody,
                            verify: RegistrationVerifyRoute.Verifier, k: nat)
    requires u.HasChallenge() && body.response.Present?
    requires RegistrationVerifyRoute.Stores(verify(RegistrationVerifyRoute.Call(u, body)))
    requires k < |u.credentials|
    requires u.credentials[k].id == verify(RegistrationVerifyRoute.Call(u, body)).registrationInfo.value.id
    ensures var v := RegistrationVerifyRoute.Post(u, Parsed(body), verify).user;
      && |v.credentials| == |u.credentials| + 1
      && v.credentials[k].id == v.credentials[|u.credentials|].id
  {
  }

  /** A credential preceded by another with the same id is unreachable by
      lookup: no authentication request can change it. */
  lemma ShadowedDuplicateNeverUpdated(u: User, request: Json<AuthenticationVerifyRoute.AuthenticationBody>,
                                                         verify: AuthenticationVerifyRoute.Verifier, j: nat, k: nat)
    requires j < k < |u.credentials|
    requires u.credentials[j].id == u.credentials[k].id
    ensures AuthenticationVerifyRoute.Post(u, request, verify).user.credentials[k] == u.credentials[k]
  {
  }

  /** No counter-monotonicity check in the handler: a verified assertion
      reporting a smaller counter than the stored one lowers the stored
      counter. The library's verifier throws on such an assertion
      (`AuthenticationVerifyRoute.FollowsCounterRule`), so this describes the
      handler under an arbitrary verifier. */
  lemma CounterMayDecrease(u: User, body: AuthenticationVerifyRoute.AuthenticationBody,
                           verify: AuthenticationVerifyRoute.Verifier, i: nat, n: nat)
    requires u.HasChallenge()
    requires Credentials.IsFirstMatch(u.credentials, body.rawId, i)
    requires verify(AuthenticationVerifyRoute.Call(u, body, u.credentials[i]))
             == AuthenticationVerifyRoute.AuthenticationResult(true, Some(AuthenticationVerifyRoute.AuthenticationInfo(n)))
    requires n < u.credentials[i].counter
    ensures var t := AuthenticationVerifyRoute.Post(u, Parsed(body), verify);
      && t.response.body == VerifyBody(true, t.user)
      && t.user.credentials[i].counter < u.credentials[i].counter
  {
  }

  /** No single-use challenge: when the verifier accepts any assertion over
      the pending challenge, replaying the same assertion succeeds again and
      reaches the same state. This is the handler under an arbitrary verifier;
      `ReplayAcceptedWithoutCounter` is the case the library's counter rule
      lets through. */
  lemma ReplayAccepted(u: User, body: AuthenticationVerifyRoute.AuthenticationBody,
                       verify: AuthenticationVerifyRoute.Verifier, n: nat)
    requires u.HasChallenge() && Credentials.HasId(u.credentials, body.rawId)
    requires forall c: AuthenticationVerifyRoute.AuthenticationCall ::
      c.expectedChallenge == u.currentChallenge.value ==>
      verify(c) == AuthenticationVerifyRoute.AuthenticationResult(true, Some(AuthenticationVerifyRoute.AuthenticationInfo(n)))
    ensures var t1 := AuthenticationVerifyRoute.Post(u, Parsed(body), verify);
      var t2 := AuthenticationVerifyRoute.Post(t1.user, Parsed(body), verify);
      && t1.response.body == VerifyBody(true, t1.user)
      && t2.response.body == VerifyBody(true, t2.user)
      && t2.user == t1.user
  {
  }

  /** No per-kind challenges: a challenge issued for registration passes the
      authentication guard and is the challenge the assertion is checked
      against. */
  lemma RegistrationChallengeServesAuthentication(u: User, challenge: string,
                                                  body: AuthenticationVerifyRoute.AuthenticationBody, c: Credential)
    requires challenge != ""
    ensures var v := RegistrationOptionsRoute.Post(u, Generated(challenge)).user;
      && v.HasChallenge()
      && AuthenticationVerifyRoute.Call(v, body, c).expectedChallenge == challenge
  {
  }

  /** The shared field means requesting authentication options discards a
      pending registration challenge: the registration verifier is then asked
      to check against the newer challenge. */
  lemma AuthenticationOptionsDropRegistrationChallenge(u: User, first: string, second: string,
                                                       body: RegistrationVerifyRoute.RegistrationBody)
    requires first != second && second != ""
    ensures var v := AuthenticationOptionsRoute.Post(RegistrationOptionsRoute.Post(u, Generated(first)).user, Generated(second)).user;
      && v.HasChallenge()
      && RegistrationVerifyRoute.Call(v, body).expectedChallenge == second
      && RegistrationVerifyRoute.Call(v, body).expectedChallenge != first
  {
  }

  /** An empty generated challenge is stored but fails the truthiness guard,
      so both verify handlers answer 400 until new options are requested. */
  lemma EmptyChallengeRejected(u: User,
                               rb: Json<RegistrationVerifyRoute.RegistrationBody>, rv: RegistrationVerifyRoute.Verifier,
                               ab: Json<AuthenticationVerifyRoute.AuthenticationBody>, av: AuthenticationVerifyRoute.Verifier)
    ensures var v := RegistrationOptionsRoute.Post(u, Generated("")).user;
      && v.currentChallenge.Some?
      && RegistrationVerifyRoute.Post(v, rb, rv).response.status == 400
      && AuthenticationVerifyRoute.Post(v, ab, av).response.status == 400
  {
  }

  /** Replay despite the counter rule: for an authenticator that reports no
      counter (stored and reported counter both 0), a verifier can follow the
      library's rule and still accept the same assertion twice, because the
      challenge is never consumed. */
  lemma ReplayAcceptedWithoutCounter(u: User, body: AuthenticationVerifyRoute.AuthenticationBody,
                                     verify: AuthenticationVerifyRoute.Verifier, i: nat)
    requires u.HasChallenge() && Credentials.IsFirstMatch(u.credentials, body.rawId, i)
    requires u.credentials[i].counter == 0
    requires AuthenticationVerifyRoute.FollowsCounterRule(verify)
    requires forall c: AuthenticationVerifyRoute.AuthenticationCall ::
      c.expectedChallenge == u.currentChallenge.value && c.credential.counter == 0 ==>
      verify(c) == AuthenticationVerifyRoute.AuthenticationResult(true, Some(AuthenticationVerifyRoute.AuthenticationInfo(0)))
    ensures var t1 := AuthenticationVerifyRoute.Post(u, Parsed(body), verify);
      var t2 := AuthenticationVerifyRoute.Post(t1.user, Parsed(body), verify);
      && t1.response == Response(200, VerifyBody(true, u))
      && t2.response == Response(200, VerifyBody(true, u))
      && t2.user == t1.user == u
  {
    Credentials.FindIndexIsFirstMatch(u.credentials, body.rawId, i);
    // Writing 0 over a stored 0 leaves the list as it was.
    assert u.credentials[i].(counter := 0) == u.credentials[i];
    assert Credentials.WithCounter(u.credentials, i, 0) == u.credentials;
  }
}
