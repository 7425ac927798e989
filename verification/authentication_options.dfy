/** POST /api/authentication/options: asks the library for request options
    whose allow-list is every registered credential, and stores their
    challenge in the same field the registration ceremony uses. */
module AuthenticationOptionsRoute {
  import opened Types
  import Env

  const FailureMessage: string := "Failed to generate authentication options"

  /** The arguments handed to `generateAuthenticationOptions` for user `u`. */
  function Params(u: User): AuthenticationParams {
    AuthenticationParams(Env.RpId, Env.Timeout, Preferred, u.credentials)
  }

  /** The handler, given what the generator did. */
  function Post(u: User, gen: GeneratorOutcome): (t: Transition)
    // The credential list, counters included, and the identity are untouched.
    ensures SameIdentity(u, t.user) && t.user.credentials == u.credentials
    // The shared field is overwritten, so a pending registration challenge is lost.
    ensures gen.Generated? ==> t.user.currentChallenge == Some(gen.challenge)
    ensures gen.Generated? ==> t.response.status == 200
    ensures gen.Generated? ==> t.response.body.AuthenticationOptionsBody?
    ensures gen.Generated? ==> t.response.body.challenge == gen.challenge
    ensures gen.GenerationFailed? ==> t.response == Response(500, ErrorBody(FailureMessage))
    ensures gen.GenerationFailed? ==> t.user == u
  {
    match gen
    case GenerationFailed => Transition(Response(500, ErrorBody(FailureMessage)), u)
    case Generated(c) =>
      Transition(Response(200, AuthenticationOptionsBody(Params(u), c)), u.(currentChallenge := Some(c)))
  }

  /** The options returned allow exactly the registered credentials, in
      registration order, and ask for a 60 second timeout and preferred user
      verification on this relying party. */
  lemma OptionsContent(u: User, gen: GeneratorOutcome)
    ensures var b := Post(u, gen).response.body;
      b.AuthenticationOptionsBody? ==>
        && |b.authentication.allowCredentials| == |u.credentials|
        && (forall j :: 0 <= j < |u.credentials| ==> b.authentication.allowCredentials[j] == u.credentials[j])
        && b.authentication.rpID == Env.RpId
        && b.authentication.timeout == 60000
        && b.authentication.userVerification == Preferred
  {
  }
}
