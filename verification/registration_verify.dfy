/** POST /api/registration/verify: checks that a challenge is pending, hands
    the attestation response to the library verifier and, when it is
    verified, appends the new credential to the user's list. */
module RegistrationVerifyRoute {
  import opened Types
  import Env

  /** The `response` member of a posted body: absent, `null`, or an object
      whose `transports` the handler stores verbatim. */
  datatype AttestationField =
    | Undefined
    | Null
    | Present(transports: Option<seq<Transport>>)

  /** The attestation response the browser posts: the part only the verifier
      reads, and the `response` member the handler reads after verification. */
  datatype RegistrationBody = RegistrationBody(payload: string, response: AttestationField)

  /** The arguments of one `verifyRegistrationResponse` call. */
  datatype RegistrationCall = RegistrationCall(
    response: RegistrationBody,
    expectedChallenge: string,
    expectedOrigin: string,
    expectedRPID: string,
    requireUserVerification: bool)

  /** `registrationInfo.credential` of a successful verification. */
  datatype NewCredential = NewCredential(id: string, publicKey: seq<byte>, counter: nat)

  /** What the verifier did: threw, or returned `{verified, registrationInfo}`. */
  datatype RegistrationOutcome =
    | RegistrationThrew(thrown: Thrown)
    | RegistrationResult(verified: bool, registrationInfo: Option<NewCredential>)

  /** The verifier is an oracle over its arguments. */
  type Verifier = RegistrationCall -> RegistrationOutcome

  const NoChallengeMessage: string := "No challenge found for user"

  function FailureMessage(t: Thrown): string {
    "Registration verification failed: " + ThrownText(t)
  }

  /** The call the handler makes once the guard has passed. */
  function Call(u: User, body: RegistrationBody): RegistrationCall
    requires u.HasChallenge()
  {
    RegistrationCall(body, u.currentChallenge.value, Env.Origin, Env.RpId, false)
  }

  /** The branch `verified && registrationInfo` that stores a credential. */
  predicate Stores(out: RegistrationOutcome) {
    out.RegistrationResult? && out.verified && out.registrationInfo.Some?
  }

  /** The TypeError Node.js throws for `body.response.transports` when the
      body has no `response` object. */
  function MissingResponseError(f: AttestationField): Thrown
    requires !f.Present?
  {
    ErrorInstance("Cannot read properties of " + (if f.Undefined? then "undefined" else "null")
                  + " (reading 'transports')")
  }

  function Post(u: User, request: Json<RegistrationBody>, verify: Verifier): (t: Transition)
    // The challenge is never consumed and the identity is never written.
    ensures SameIdentity(u, t.user) && t.user.currentChallenge == u.currentChallenge
    // Every error is a 400 that leaves the record exactly as it was.
    ensures t.response.status != 200 ==> t.response.status == 400 && t.user == u
    ensures !u.HasChallenge() ==> t == Transition(Response(400, ErrorBody(NoChallengeMessage)), u)
    ensures u.HasChallenge() && request.Unparsable? ==>
      t == Transition(Response(400, ErrorBody(FailureMessage(ErrorInstance(request.message)))), u)
    // The list either stays as it was or grows by one at its end.
    ensures t.user.credentials == u.credentials
         || (|t.user.credentials| == |u.credentials| + 1 && t.user.credentials[..|u.credentials|] == u.credentials)
    ensures u.HasChallenge() && request.Parsed? ==>
      var out := verify(Call(u, request.body));
      && (out.RegistrationThrew? ==>
            t == Transition(Response(400, ErrorBody(FailureMessage(out.thrown))), u))
      && (out.RegistrationResult? && !Stores(out) ==>
            t == Transition(Response(200, VerifyBody(out.verified, u)), u))
      // Transports are read only after verification, so a body without a
      // `response` object fails there and nothing is stored.
      && (Stores(out) && !request.body.response.Present? ==>
            t == Transition(Response(400, ErrorBody(FailureMessage(MissingResponseError(request.body.response)))), u))
      && (Stores(out) && request.body.response.Present? ==>
            var info := out.registrationInfo.value;
            && t.response == Response(200, VerifyBody(true, t.user))
            && |t.user.credentials| == |u.credentials| + 1
            && t.user.credentials[..|u.credentials|] == u.credentials
            && t.user.credentials[|u.credentials|]
               == Credential(info.id, info.publicKey, info.counter, request.body.response.transports))
  {
    if !u.HasChallenge() then
      Transition(Response(400, ErrorBody(NoChallengeMessage)), u)
    else match request
      case Unparsable(m) =>
        Transition(Response(400, ErrorBody(FailureMessage(ErrorInstance(m)))), u)
      case Parsed(body) =>
        match verify(Call(u, body))
        case RegistrationThrew(e) =>
          Transition(Response(400, ErrorBody(FailureMessage(e))), u)
        case RegistrationResult(verified, info) =>
          if !(verified && info.Some?) then
            Transition(Response(200, VerifyBody(verified, u)), u)
          else if !body.response.Present? then
            Transition(Response(400, ErrorBody(FailureMessage(MissingResponseError(body.response)))), u)
          else
            var c := info.value;
            var u' := u.(credentials := u.credentials
                           + [Credential(c.id, c.publicKey, c.counter, body.response.transports)]);
            Transition(Response(200, VerifyBody(true, u')), u')
  }

  /** The verifier is consulted only with the pending challenge, the configured
      origin and RP ID, the posted body and user verification not required:
      two verifiers that agree on every such call give the same transition. */
  lemma VerifierSeesPendingChallenge(u: User, request: Json<RegistrationBody>, v1: Verifier, v2: Verifier)
    requires u.HasChallenge() && request.Parsed?
    requires forall c: RegistrationCall ::
      c.expectedChallenge == u.currentChallenge.value && c.expectedOrigin == Env.Origin
      && c.expectedRPID == Env.RpId && c.response == request.body && !c.requireUserVerification
      ==> v1(c) == v2(c)
    ensures Post(u, request, v1) == Post(u, request, v2)
  {
  }
}
