/** POST /api/authentication/verify: checks that a challenge is pending, finds
    the credential the assertion names, hands the assertion to the library
    verifier and, when it is verified, overwrites that credential's counter. */
module AuthenticationVerifyRoute {
  import opened Types
  import Credentials
  import Env

  /** The assertion response the browser posts: the credential id the handler
      looks up, and the part only the verifier reads. */
  datatype AuthenticationBody = AuthenticationBody(rawId: string, payload: string)

  /** The arguments of one `verifyAuthenticationResponse` call. */
  datatype AuthenticationCall = AuthenticationCall(
    response: AuthenticationBody,
    expectedChallenge: string,
    expectedOrigin: string,
    expectedRPID: string,
    credential: Credential,
    requireUserVerification: bool)

  datatype AuthenticationInfo = AuthenticationInfo(newCounter: nat)

  /** What the verifier did: threw, or returned `{verified, authenticationInfo}`. */
  datatype AuthenticationOutcome =
    | AuthenticationThrew(thrown: Thrown)
    | AuthenticationResult(verified: bool, authenticationInfo: Option<AuthenticationInfo>)

  type Verifier = AuthenticationCall -> AuthenticationOutcome

  /** This handler writes the origin as a literal rather than using the
      configured constant; the two strings are equal. */
  const ExpectedOrigin: string := "http://localhost:3000"

  const NoChallengeMessage: string :=
    "No authentication challenge found. Please request authentication options first."

  const UnknownCredentialMessage: string :=
    "Authenticator is not registered with this site. Please register first."

  function FailureMessage(t: Thrown): string {
    "Authentication verification failed: " + ThrownText(t)
  }

  /** The call the handler makes once the guard and the lookup have passed. */
  function Call(u: User, body: AuthenticationBody, credential: Credential): AuthenticationCall
    requires u.HasChallenge()
  {
    AuthenticationCall(body, u.currentChallenge.value, ExpectedOrigin, Env.RpId, credential, false)
  }

  /** The branch `verified && authenticationInfo` that writes the counter. */
  predicate Updates(out: AuthenticationOutcome) {
    out.AuthenticationResult? && out.verified && out.authenticationInfo.Some?
  }

  /** Whether a stored and a reported signature counter pass the comparison of
      section 7.2 of W3C Web Authentication Level 2: the reported counter must
      exceed the stored one unless both are 0. */
  predicate CounterAccepted(stored: nat, reported: nat) {
    reported > stored || (stored == 0 && reported == 0)
  }

  /** A verifier that, as `verifyAuthenticationResponse` documents, throws
      rather than verify an assertion whose counter fails that comparison.
      The handler does not check this; it is a property the oracle may have. */
  ghost predicate FollowsCounterRule(verify: Verifier) {
    forall c: AuthenticationCall :: Updates(verify(c)) ==>
      CounterAccepted(c.credential.counter, verify(c).authenticationInfo.value.newCounter)
  }

  function Post(u: User, request: Json<AuthenticationBody>, verify: Verifier): (t: Transition)
    // The challenge is never consumed and the identity is never written.
    ensures SameIdentity(u, t.user) && t.user.currentChallenge == u.currentChallenge
    // Every error is a 400 that leaves the record exactly as it was.
    ensures t.response.status != 200 ==> t.response.status == 400 && t.user == u
    // The guard comes before the body is read or any credential looked up.
    ensures !u.HasChallenge() ==> t == Transition(Response(400, ErrorBody(NoChallengeMessage)), u)
    ensures u.HasChallenge() && request.Unparsable? ==>
      t == Transition(Response(400, ErrorBody(FailureMessage(ErrorInstance(request.message)))), u)
    ensures u.HasChallenge() && request.Parsed? && !Credentials.HasId(u.credentials, request.body.rawId) ==>
      t == Transition(Response(400, ErrorBody(UnknownCredentialMessage)), u)
    // Only counters may change: same length, same keys in the same places.
    ensures |t.user.credentials| == |u.credentials|
    ensures forall j :: 0 <= j < |u.credentials| ==> Credentials.SameKey(u.credentials[j], t.user.credentials[j])
    ensures u.HasChallenge() && request.Parsed? ==>
      match Credentials.FindIndex(u.credentials, request.body.rawId)
      case None => t.user == u
      case Some(i) =>
        var out := verify(Call(u, request.body, u.credentials[i]));
        && (forall j :: 0 <= j < |u.credentials| && j != i ==> t.user.credentials[j] == u.credentials[j])
        && (out.AuthenticationThrew? ==>
              t == Transition(Response(400, ErrorBody(FailureMessage(out.thrown))), u))
        && (out.AuthenticationResult? ==> t.response == Response(200, VerifyBody(out.verified, t.user)))
        && (Updates(out) ==> t.user.credentials[i].counter == out.authenticationInfo.value.newCounter)
        && (!Updates(out) ==> t.user == u)
  {
    if !u.HasChallenge() then
      Transition(Response(400, ErrorBody(NoChallengeMessage)), u)
    else match request
      case Unparsable(m) =>
        Transition(Response(400, ErrorBody(FailureMessage(ErrorInstance(m)))), u)
      case Parsed(body) =>
        match Credentials.FindIndex(u.credentials, body.rawId)
        case None =>
          Credentials.FindIndexIsFirstMatch(u.credentials, body.rawId, 0);
          Transition(Response(400, ErrorBody(UnknownCredentialMessage)), u)
        case Some(i) =>
          match verify(Call(u, body, u.credentials[i]))
          case AuthenticationThrew(e) =>
            Transition(Response(400, ErrorBody(FailureMessage(e))), u)
          case AuthenticationResult(verified, info) =>
            var u' := if verified && info.Some?
                      then u.(credentials := Credentials.WithCounter(u.credentials, i, info.value.newCounter))
                      else u;
            Transition(Response(200, VerifyBody(verified, u')), u')
  }

  /** The verifier is consulted only with the pending challenge, this
      handler's origin, the configured RP ID, the posted body, user verification not
      required, and the first credential whose id equals `rawId`: two
      verifiers that agree on every such call give the same transition. */
  lemma VerifierSeesFirstMatch(u: User, request: Json<AuthenticationBody>, v1: Verifier, v2: Verifier)
    requires u.HasChallenge() && request.Parsed?
    requires forall c: AuthenticationCall ::
      c.expectedChallenge == u.currentChallenge.value && c.expectedOrigin == ExpectedOrigin
      && c.expectedRPID == Env.RpId && c.response == request.body && !c.requireUserVerification
      && (exists j: nat :: Credentials.IsFirstMatch(u.credentials, request.body.rawId, j) && c.credential == u.credentials[j])
      ==> v1(c) == v2(c)
    ensures Post(u, request, v1) == Post(u, request, v2)
  {
  }

  /** Counter monotonicity comes only from the verifier: under the counter
      rule no stored counter goes down, and the one that is written goes up
      unless the authenticator reports no counter at all. */
  lemma CounterRuleKeepsCountersMonotone(u: User, request: Json<AuthenticationBody>, verify: Verifier)
    requires FollowsCounterRule(verify)
    ensures var v := Post(u, request, verify).user;
      && Credentials.CountersGrow(u.credentials, v.credentials)
      && forall j :: 0 <= j < |u.credentials| && v.credentials[j] != u.credentials[j] ==>
           CounterAccepted(u.credentials[j].counter, v.credentials[j].counter)
  {
  }
}
